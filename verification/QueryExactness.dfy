/** When a query with several filters returns nothing too much (nostr-surreal-db/src/db.rs). The WHERE text
    and the post-filter each accept an event for some filter, but not necessarily for the same one. */
module QueryExactness {
  import opened Common
  import Senders
  import opened Wire
  import Ordering
  import opened Filters
  import opened FilterReasons
  import opened SqlMeaning
  import opened Query

  const MAX_TIME: nat := 0xffff_ffff_ffff_ffff

  // ---------------------------------------------------------------- exactness

  predicate FullMatchAny(e: Event, fs: seq<Filter>) {
    exists i :: 0 <= i < |fs| && FullMatch(e, fs[i])
  }

  /** Whatever the stored events, the query returns those that some filter fully matches. */
  ghost predicate ExactOnEveryDatabase(fs: seq<Filter>) {
    forall stored :: QueryByFilters(stored, fs) == Return(Ok(Select(e => FullMatchAny(e, fs), stored)))
  }

  lemma ExactWhenChosenMatch(fs: seq<Filter>)
    requires fs != [] && forall e :: Chosen(e, fs) ==> FullMatchAny(e, fs)
    ensures ExactOnEveryDatabase(fs)
  {
    forall stored ensures QueryByFilters(stored, fs) == Return(Ok(Select(e => FullMatchAny(e, fs), stored))) {
      QuerySelects(stored, fs);
      forall e ensures Chosen(e, fs) <==> FullMatchAny(e, fs) { ManyFiltersAreCloseToExact(e, fs); }
      SelectSame(e => Chosen(e, fs), e => FullMatchAny(e, fs), stored);
    }
  }

  // ---------------------------------------------------------------- the exact condition

  /** Some time passes the test of `f` and of none of the filters that reject by time. */
  ghost predicate TimePasses(fs: seq<Filter>, f: Filter, why: seq<Why>)
    requires |why| == |fs|
  {
    exists t: Timestamp :: TimeTest(f, t) &&
      forall k :: 0 <= k < |fs| && why[k].ByTime? ==> !TimeTest(fs[k], t)
  }

  /** The text can pick an event for filter `i`, which rejects its tags, and the post-filter keep it for
      filter `j`, which rejects its time, while every filter has some reason to reject it. Each test concerns
      one field alone. */
  ghost predicate LeaksThrough(fs: seq<Filter>, i: int, j: int, why: seq<Why>) {
    && 0 <= i < |fs| && 0 <= j < |fs| && |why| == |fs| && why[i].ByTag? && why[j].ByTime?
    && FieldsEscape(fs, fs[i], fs[j], why) && TimePasses(fs, fs[i], why)
  }

  lemma DifferenceLeaksThrough(e: Event, fs: seq<Filter>) returns (i: int, j: int, why: seq<Why>)
    requires Chosen(e, fs) && !FullMatchAny(e, fs)
    ensures LeaksThrough(fs, i, j, why)
  {
    i :| 0 <= i < |fs| && Prefilter(e, fs[i]);
    j :| 0 <= j < |fs| && MatchFilter(e, fs[j]);
    forall k | 0 <= k < |fs| ensures !MatchesInTime(e, fs[k], TimeTest) { assert !FullMatch(e, fs[k]); }
    why := seq(|fs|, k requires 0 <= k < |fs| => Reason(e, fs[k], TimeTest));
    assert Allows(fs[i].ids, e.id) && Allows(fs[i].authors, e.sender) && Allows(fs[i].kinds, e.kind);
    FieldsOfARejection(e, fs, fs[i], fs[j], why, TimeTest);
    assert forall k :: 0 <= k < |fs| && why[k].ByTime? ==> !TimeTest(fs[k], e.createdAt);
  }

  // ---------------------------------------------------------------- a leak shows

  lemma LeakThroughShows(fs: seq<Filter>, i: int, j: int, why: seq<Why>) returns (e: Event)
    requires LeaksThrough(fs, i, j, why)
    ensures Prefilter(e, fs[i]) && MatchFilter(e, fs[j]) && !FullMatchAny(e, fs)
  {
    var time: Timestamp :| TimeTest(fs[i], time) &&
      forall k :: 0 <= k < |fs| && why[k].ByTime? ==> !TimeTest(fs[k], time);
    e := EscapingEvent(fs, fs[i], fs[j], why, time);
    forall k | 0 <= k < |fs| ensures !FullMatch(e, fs[k]) {
      if !why[k].ByTime? { assert Rejects(fs[k], e, why[k], true); }
    }
  }

  lemma LeakIsReturned(e: Event, f: Filter, g: Filter, fs: seq<Filter>)
    requires f in fs && g in fs && Prefilter(e, f) && MatchFilter(e, g) && !FullMatchAny(e, fs)
    ensures QueryByFilters([e], fs) != Return(Ok(Select(e => FullMatchAny(e, fs), [e])))
  {
    QuerySelects([e], fs);
    SelectOne(x => Chosen(x, fs), e);
    SelectOne(x => FullMatchAny(x, fs), e);
  }

  /** A query is exact on every database if and only if nothing leaks through its filters. */
  lemma QueriesAreExactIff(fs: seq<Filter>)
    requires fs != []
    ensures ExactOnEveryDatabase(fs) <==> forall i, j, why :: !LeaksThrough(fs, i, j, why)
  {
    if exists i, j, why :: LeaksThrough(fs, i, j, why) {
      var i, j, why :| LeaksThrough(fs, i, j, why);
      var e := LeakThroughShows(fs, i, j, why);
      LeakIsReturned(e, fs[i], fs[j], fs);
    }
    if forall i, j, why :: !LeaksThrough(fs, i, j, why) {
      forall e ensures Chosen(e, fs) ==> FullMatchAny(e, fs) {
        if Chosen(e, fs) && !FullMatchAny(e, fs) {
          var i, j, why := DifferenceLeaksThrough(e, fs);
        }
      }
      ExactWhenChosenMatch(fs);
    }
  }

  // ---------------------------------------------------------------- an example

  function WantsTag(name: string, value: string): FilterOnWire {
    FilterOnWire([], [], [], None, None, None, map[RawKey(name) := Strings([value])])
  }

  const TOO_EARLY := FilterOnWire([], [], [], None, Some(10), None, map[])

  lemma NormalOfOne<T>(key: T -> Ordering.Key, x: T)
    ensures Ordering.Normal(key, [x]) == [x]
  {
    assert Ordering.Sort(key, [x][1..]) == [];
  }

  lemma OneWantedTag(name: string, value: string)
    requires |name| == 1 && name != "e" && name != "p"
    ensures Normalise(WantsTag(name, value)) == Ok(Filter([], [], [], None, None, None, map[name := [value]]))
  {
    var raw := WantsTag(name, value).tags;
    assert RawKey(name)[1..] == name;
    forall other | other in TagNames(raw) ensures other == name {
      assert RawKey(other)[1..] == other;
    }
    NormalOfOne(TextKey, value);
    assert IndexedTags(raw) == map[name := [value]];
  }

  lemma NoWantedTags()
    ensures Normalise(TOO_EARLY) == Ok(Filter([], [], [], None, Some(10), None, map[]))
  {
    assert IndexedTags(TOO_EARLY.tags) == map[];
  }

  /** One wire filter accepts the time but not the tags, the other the tags but not the time. Every stored
      event without tags that is later than the bound is returned, though neither filter fully matches it. */
  lemma SeveralFiltersCanReturnTooMuch(ev: EventOnWire, idHash: EventOnWire -> Bytes32, now: Timestamp)
    requires Index(ev, idHash, now).Ok? && ev.tags == [] && ev.createdAt > 10
    ensures var f, g := Normalise(WantsTag("t", "nostr")), Normalise(TOO_EARLY);
      && f.Ok? && g.Ok?
      && var e, fs := Index(ev, idHash, now).value, [f.value, g.value];
        QueryByFilters([e], fs) == Return(Ok([e])) && !FullMatchAny(e, fs)
  {
    OneWantedTag("t", "nostr");
    NoWantedTags();
    var e := Index(ev, idHash, now).value;
    var f, g := Normalise(WantsTag("t", "nostr")).value, Normalise(TOO_EARLY).value;
    assert "t" in f.tags && !MatchOneTag(e.tags, "t", f.tags["t"]);
    DifferenceIsReturned(e, f, g);
  }

  lemma DifferenceIsReturned(e: Event, f: Filter, g: Filter)
    requires Prefilter(e, f) && MatchFilter(e, g) && !FullMatch(e, f) && !FullMatch(e, g)
    ensures QueryByFilters([e], [f, g]) == Return(Ok([e])) && !FullMatchAny(e, [f, g])
  {
    var fs := [f, g];
    assert Prefilter(e, fs[0]) && MatchFilter(e, fs[1]);
    QuerySelects([e], fs);
    SelectOne(x => Chosen(x, fs), e);
  }

  // ---------------------------------------------------------------- a test on two filters

  predicate Compatible<T(==)>(a: seq<T>, b: seq<T>) {
    a == [] || b == [] || exists x :: x in a && x in b
  }

  /** The earliest and the latest time that pass a filter's strict time test. */
  function Earliest(f: Filter): nat {
    if f.since.Some? then f.since.value + 1 else if f.until.Some? then 0 else 1
  }

  function Latest(f: Filter): int {
    if f.until.Some? then f.until.value - 1 else MAX_TIME
  }

  /** Some time passes the test of `f` but not that of `g`. */
  predicate TimeEscapes(f: Filter, g: Filter) {
    Earliest(f) <= Latest(f) && (Earliest(f) < Earliest(g) || Latest(g) < Latest(f))
  }

  /** Tags can satisfy `wanted` without satisfying `other`. */
  predicate TagsCanDiffer(wanted: Lists, other: Lists) {
    exists name :: name in other && Avoids(wanted, name, other[name])
  }

  /** What `wanted` asks under `name`, if anything, can be met outside `values`. */
  predicate Avoids(wanted: Lists, name: string, values: seq<string>) {
    name in wanted ==> exists v :: v in wanted[name] && v !in values
  }

  /** The text can pick an event for `f` that the post-filter then keeps for `g`, though it fails the tags
      of `f` and the time of `g`. */
  predicate Leaks(f: Filter, g: Filter) {
    && Compatible(f.ids, g.ids) && Compatible(f.authors, g.authors) && Compatible(f.kinds, g.kinds)
    && TimeEscapes(f, g) && TagsCanDiffer(g.tags, f.tags)
  }

  lemma DifferenceIsALeak(e: Event, f: Filter, g: Filter)
    requires Prefilter(e, f) && MatchFilter(e, g) && !FullMatch(e, f) && !FullMatch(e, g)
    ensures Leaks(f, g)
  {
  }

  /** A query is exact on every database when no filter leaks into another. */
  lemma WithoutLeaksQueriesAreExact(fs: seq<Filter>)
    requires fs != [] && forall i, j :: 0 <= i < |fs| && 0 <= j < |fs| ==> !Leaks(fs[i], fs[j])
    ensures ExactOnEveryDatabase(fs)
  {
    forall e ensures Chosen(e, fs) ==> FullMatchAny(e, fs) {
      if Chosen(e, fs) && !FullMatchAny(e, fs) {
        var i :| 0 <= i < |fs| && Prefilter(e, fs[i]);
        var j :| 0 <= j < |fs| && MatchFilter(e, fs[j]);
        DifferenceIsALeak(e, fs[i], fs[j]);
      }
    }
    ExactWhenChosenMatch(fs);
  }

  lemma ElementOfBoth<T>(a: seq<T>, b: seq<T>, otherwise: T) returns (x: T)
    requires Compatible(a, b)
    ensures (a == [] || x in a) && (b == [] || x in b)
  {
    if a == [] {
      x := if b == [] then otherwise else b[0];
    } else if b == [] {
      x := a[0];
    } else {
      x :| x in a && x in b;
    }
  }

  lemma LeakShows(f: Filter, g: Filter) returns (e: Event)
    requires Leaks(f, g) && WellTagged(g)
    ensures Prefilter(e, f) && MatchFilter(e, g) && !FullMatch(e, f) && !FullMatch(e, g)
  {
    var name :| name in f.tags && Avoids(g.tags, name, f.tags[name]);
    var values := map k | k in g.tags :: g.tags[k][0];
    if name in g.tags {
      var v :| v in g.tags[name] && v !in f.tags[name];
      values := values[name := v];
    }
    var tags := TagsMatch(g.tags, values);
    assert !MatchOneTag(tags, name, f.tags[name]);
    var key: Bytes32 := seq(32, _ => 0);
    var id := ElementOfBoth(f.ids, g.ids, key);
    var author := ElementOfBoth(f.authors, g.authors, Senders.Ens(key));
    var kind := ElementOfBoth(f.kinds, g.kinds, 0);
    var time: Timestamp := if Earliest(f) < Earliest(g) then Earliest(f) else Latest(f);
    e := Event(id, author, [], time, kind, tags, None, "");
  }

  /** Two filters are answered exactly on every database if and only if neither leaks into the other. */
  lemma TwoFiltersAreExactIff(f: Filter, g: Filter)
    requires WellTagged(f) && WellTagged(g)
    ensures ExactOnEveryDatabase([f, g]) <==> !Leaks(f, g) && !Leaks(g, f)
  {
    if Leaks(f, g) {
      var e := LeakShows(f, g);
      LeakIsReturned(e, f, g, [f, g]);
    }
    if Leaks(g, f) {
      var e := LeakShows(g, f);
      LeakIsReturned(e, g, f, [f, g]);
    }
    if !Leaks(f, g) && !Leaks(g, f) {
      assert !Leaks(f, f) && !Leaks(g, g);
      WithoutLeaksQueriesAreExact([f, g]);
    }
  }
}
