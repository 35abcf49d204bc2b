/** Why filters reject an event, and how to build an event that all filters of a list reject for given
    reasons: the ground for saying exactly when a list of filters lets through more than it asks for. */
module FilterReasons {
  import opened Common
  import Senders
  import Wire
  import opened Filters
  import Ordering

  type Lists = map<string, seq<string>>
  type TimeCheck = (Filter, Wire.Timestamp) -> bool

  datatype Why = ById | ByAuthor | ByKind | ByTime | ByTag(name: string)

  predicate Allows<T(==)>(items: seq<T>, x: T) {
    items == [] || x in items
  }

  /** Some reason to reject `e`, where `inTime` is the outcome of whatever time check applies. */
  ghost predicate Rejects(f: Filter, e: Event, why: Why, inTime: bool) {
    match why
    case ById => !Allows(f.ids, e.id)
    case ByAuthor => !Allows(f.authors, e.sender)
    case ByKind => !Allows(f.kinds, e.kind)
    case ByTime => !inTime
    case ByTag(name) => name in f.tags && !MatchOneTag(e.tags, name, f.tags[name])
  }

  predicate MatchesInTime(e: Event, f: Filter, check: TimeCheck) {
    MatchFilter(e, f) && check(f, e.createdAt)
  }

  /** The reason to reject `e`; time comes after id, author and kind, tags come last. */
  ghost function Reason(e: Event, f: Filter, check: TimeCheck): (why: Why)
    requires !MatchesInTime(e, f, check)
    ensures Rejects(f, e, why, check(f, e.createdAt))
    ensures MatchFilter(e, f) ==> why.ByTime?
    ensures Allows(f.ids, e.id) && Allows(f.authors, e.sender) && Allows(f.kinds, e.kind) && check(f, e.createdAt)
      ==> why.ByTag?
  {
    if !Allows(f.ids, e.id) then ById
    else if !Allows(f.authors, e.sender) then ByAuthor
    else if !Allows(f.kinds, e.kind) then ByKind
    else if !check(f, e.createdAt) then ByTime
    else
      var name :| name in f.tags && !MatchOneTag(e.tags, name, f.tags[name]);
      ByTag(name)
  }

  // ---------------------------------------------------------------- one field at a time

  /** Some id is allowed by `f` and `g`, and by none of the filters that reject by id. */
  ghost predicate IdEscapes(fs: seq<Filter>, f: Filter, g: Filter, why: seq<Why>)
    requires |why| == |fs|
  {
    exists id: Bytes32 :: Allows(f.ids, id) && Allows(g.ids, id) &&
      forall k :: 0 <= k < |fs| && why[k].ById? ==> !Allows(fs[k].ids, id)
  }

  ghost predicate AuthorEscapes(fs: seq<Filter>, f: Filter, g: Filter, why: seq<Why>)
    requires |why| == |fs|
  {
    exists author :: Allows(f.authors, author) && Allows(g.authors, author) &&
      forall k :: 0 <= k < |fs| && why[k].ByAuthor? ==> !Allows(fs[k].authors, author)
  }

  ghost predicate KindEscapes(fs: seq<Filter>, f: Filter, g: Filter, why: seq<Why>)
    requires |why| == |fs|
  {
    exists kind: uint16 :: Allows(f.kinds, kind) && Allows(g.kinds, kind) &&
      forall k :: 0 <= k < |fs| && why[k].ByKind? ==> !Allows(fs[k].kinds, kind)
  }

  /** A tag with this value satisfies none of the filters that reject by its name. */
  ghost predicate Outside(fs: seq<Filter>, why: seq<Why>, name: string, value: string)
    requires |why| == |fs|
  {
    forall k :: 0 <= k < |fs| && why[k] == ByTag(name) && name in fs[k].tags ==> value !in fs[k].tags[name]
  }

  ghost predicate ValueEscapes(fs: seq<Filter>, why: seq<Why>, name: string, values: seq<string>)
    requires |why| == |fs|
  {
    exists v :: v in values && Outside(fs, why, name, v)
  }

  ghost predicate TagsEscape(fs: seq<Filter>, g: Filter, why: seq<Why>)
    requires |why| == |fs|
  {
    && (forall k :: 0 <= k < |fs| && why[k].ByTag? ==> why[k].name in fs[k].tags)
    && (forall name :: name in g.tags ==> ValueEscapes(fs, why, name, g.tags[name]))
  }

  /** Everything but the time can be chosen so that `f` allows id, author and kind, `g` matches, and all the
      filters that reject for other reasons than time do so. */
  ghost predicate FieldsEscape(fs: seq<Filter>, f: Filter, g: Filter, why: seq<Why>) {
    && |why| == |fs|
    && IdEscapes(fs, f, g, why) && AuthorEscapes(fs, f, g, why) && KindEscapes(fs, f, g, why)
    && TagsEscape(fs, g, why)
  }

  // ---------------------------------------------------------------- from an event to the reasons

  ghost predicate AllReject(fs: seq<Filter>, e: Event, why: seq<Why>, check: TimeCheck) {
    |why| == |fs| && forall k :: 0 <= k < |fs| ==> Rejects(fs[k], e, why[k], check(fs[k], e.createdAt))
  }

  lemma TagsOfARejection(e: Event, fs: seq<Filter>, g: Filter, why: seq<Why>, check: TimeCheck)
    requires AllReject(fs, e, why, check) && MatchTags(g.tags, e.tags)
    ensures TagsEscape(fs, g, why)
  {
    forall k | 0 <= k < |fs| && why[k].ByTag? ensures why[k].name in fs[k].tags {
      assert Rejects(fs[k], e, why[k], check(fs[k], e.createdAt));
    }
    forall name | name in g.tags ensures ValueEscapes(fs, why, name, g.tags[name]) {
      assert MatchOneTag(e.tags, name, g.tags[name]);
      var n :| 0 <= n < |e.tags| && e.tags[n].0 == name && e.tags[n].1 in g.tags[name];
      forall k | 0 <= k < |fs| && why[k] == ByTag(name) ensures e.tags[n].1 !in fs[k].tags[name] {
        assert Rejects(fs[k], e, why[k], check(fs[k], e.createdAt));
      }
      assert Outside(fs, why, name, e.tags[n].1);
    }
  }

  lemma FieldsOfARejection(e: Event, fs: seq<Filter>, f: Filter, g: Filter, why: seq<Why>, check: TimeCheck)
    requires AllReject(fs, e, why, check) && MatchFilter(e, g)
    requires Allows(f.ids, e.id) && Allows(f.authors, e.sender) && Allows(f.kinds, e.kind)
    ensures FieldsEscape(fs, f, g, why)
  {
    assert Allows(g.ids, e.id) && Allows(g.authors, e.sender) && Allows(g.kinds, e.kind);
    assert forall k :: 0 <= k < |fs| ==> Rejects(fs[k], e, why[k], check(fs[k], e.createdAt));
    TagsOfARejection(e, fs, g, why, check);
  }

  // ---------------------------------------------------------------- from the reasons to an event

  /** Exactly these tags, in some order. */
  lemma {:induction false} TagsOf(values: map<string, string>) returns (tags: seq<(string, string)>)
    ensures forall i :: 0 <= i < |tags| ==> tags[i].0 in values && tags[i].1 == values[tags[i].0]
    ensures forall name :: name in values ==> exists i :: 0 <= i < |tags| && tags[i] == (name, values[name])
    decreases |values|
  {
    tags := [];
    if values != map[] {
      var k :| k in values;
      var rest := values - {k};
      assert |rest.Keys| < |values.Keys| by { assert rest.Keys == values.Keys - {k}; }
      var others := TagsOf(rest);
      tags := others + [(k, values[k])];
      assert tags[|others|] == (k, values[k]);
      forall name | name in values ensures exists i :: 0 <= i < |tags| && tags[i] == (name, values[name]) {
        if name != k {
          var i :| 0 <= i < |others| && others[i] == (name, rest[name]);
          assert tags[i] == others[i];
        }
      }
    }
  }

  /** One tag for each wanted name, with a listed value. */
  lemma TagsMatch(wanted: Lists, values: map<string, string>) returns (tags: seq<(string, string)>)
    requires values.Keys == wanted.Keys && forall name :: name in wanted ==> values[name] in wanted[name]
    ensures MatchTags(wanted, tags)
    ensures forall name, list :: (name in values ==> values[name] !in list) ==> !MatchOneTag(tags, name, list)
  {
    tags := TagsOf(values);
    forall name | name in wanted ensures MatchOneTag(tags, name, wanted[name]) {
      var i :| 0 <= i < |tags| && tags[i] == (name, values[name]);
    }
  }

  ghost function Escaping(fs: seq<Filter>, why: seq<Why>, name: string, values: seq<string>): (v: string)
    requires |why| == |fs| && ValueEscapes(fs, why, name, values)
    ensures v in values && Outside(fs, why, name, v)
  {
    var v :| v in values && Outside(fs, why, name, v);
    v
  }

  lemma EscapingTags(fs: seq<Filter>, g: Filter, why: seq<Why>) returns (tags: seq<(string, string)>)
    requires |why| == |fs| && TagsEscape(fs, g, why)
    ensures MatchTags(g.tags, tags)
    ensures forall k :: 0 <= k < |fs| && why[k].ByTag? ==>
      why[k].name in fs[k].tags && !MatchOneTag(tags, why[k].name, fs[k].tags[why[k].name])
  {
    var values := map name | name in g.tags :: Escaping(fs, why, name, g.tags[name]);
    tags := TagsMatch(g.tags, values);
    forall k | 0 <= k < |fs| && why[k].ByTag?
      ensures !MatchOneTag(tags, why[k].name, fs[k].tags[why[k].name])
    {
      var name := why[k].name;
      assert name in values ==> Outside(fs, why, name, values[name]);
    }
  }

  /** An event at any chosen time, put together field by field. */
  lemma EscapingEvent(fs: seq<Filter>, f: Filter, g: Filter, why: seq<Why>, time: Wire.Timestamp) returns (e: Event)
    requires FieldsEscape(fs, f, g, why)
    ensures MatchFilter(e, g) && e.createdAt == time
    ensures Allows(f.ids, e.id) && Allows(f.authors, e.sender) && Allows(f.kinds, e.kind)
    ensures forall k :: 0 <= k < |fs| && !why[k].ByTime? ==> Rejects(fs[k], e, why[k], true)
  {
    var id: Bytes32 :| Allows(f.ids, id) && Allows(g.ids, id) &&
      forall k :: 0 <= k < |fs| && why[k].ById? ==> !Allows(fs[k].ids, id);
    var author :| Allows(f.authors, author) && Allows(g.authors, author) &&
      forall k :: 0 <= k < |fs| && why[k].ByAuthor? ==> !Allows(fs[k].authors, author);
    var kind: uint16 :| Allows(f.kinds, kind) && Allows(g.kinds, kind) &&
      forall k :: 0 <= k < |fs| && why[k].ByKind? ==> !Allows(fs[k].kinds, kind);
    var tags := EscapingTags(fs, g, why);
    e := Event(id, author, [], time, kind, tags, None, "");
  }

  // ---------------------------------------------------------------- parsed filters

  /** No tag is indexed with an empty list. */
  predicate WellTagged(f: Filter) {
    forall name :: name in f.tags ==> f.tags[name] != []
  }

  lemma NormalFiltersAreWellTagged(f: Wire.FilterOnWire)
    ensures Normalise(f).Ok? ==> WellTagged(Normalise(f).value)
  {
    forall name | name in TagNames(f.tags) ensures Ordering.Normal(TextKey, f.tags[RawKey(name)].items) != [] {
      NormalMembership(TextKey, f.tags[RawKey(name)].items, "");
    }
  }

  /** An event that a well-tagged filter matches, at any time. */
  lemma MatchingEvent(f: Filter, time: Wire.Timestamp) returns (e: Event)
    requires WellTagged(f)
    ensures MatchFilter(e, f) && e.createdAt == time
  {
    var tags := TagsMatch(f.tags, map name | name in f.tags :: f.tags[name][0]);
    var key: Bytes32 := seq(32, _ => 0);
    var id := if f.ids == [] then key else f.ids[0];
    var author := if f.authors == [] then Senders.Ens(key) else f.authors[0];
    e := Event(id, author, [], time, if f.kinds == [] then 0 else f.kinds[0], tags, None, "");
  }
}
