/** What becomes of the time bounds of a filter: forwarding ignores them, queries read them strictly
    (nostr-surreal-db/src/message/filter.rs, events.rs, subscription.rs, db.rs). Exactly when that makes no
    difference. */
module TimeBounds {
  import opened Common
  import opened Wire
  import opened Filters
  import opened FilterReasons
  import opened Forwarding
  import SqlMeaning
  import SubscriptionTable
  import Query
  import QueryExactness

  const MAX_TIME: Timestamp := 0xffff_ffff_ffff_ffff

  /** `match_time`, which nothing calls: both bounds are inclusive. */
  predicate MatchTime(f: Filter, t: Timestamp) {
    (f.since.Some? ==> t >= f.since.value) && (f.until.Some? ==> t <= f.until.value)
  }

  /** What a filter asks for, its bounds included. */
  predicate Asked(e: Event, f: Filter) {
    MatchFilter(e, f) && MatchTime(f, e.createdAt)
  }

  predicate AskedByAny(e: Event, fs: seq<Filter>) {
    exists i :: 0 <= i < |fs| && Asked(e, fs[i])
  }

  // ---------------------------------------------------------------- forwarding

  /** Whatever matches is asked for. */
  ghost predicate RespectsTime(fs: seq<Filter>) {
    forall e :: MatchFilters(e, fs) ==> AskedByAny(e, fs)
  }

  /** The time is outside the bounds of every filter that rejects by time. */
  ghost predicate OutOfTime(fs: seq<Filter>, why: seq<Why>, t: Timestamp)
    requires |why| == |fs|
  {
    forall k :: 0 <= k < |fs| && why[k].ByTime? ==> !MatchTime(fs[k], t)
  }

  /** Filter `j` can match an event outside its bounds that every other filter rejects for some reason. */
  ghost predicate Strays(fs: seq<Filter>, j: int, why: seq<Why>) {
    && 0 <= j < |fs| && |why| == |fs| && why[j].ByTime?
    && FieldsEscape(fs, fs[j], fs[j], why) && exists t :: OutOfTime(fs, why, t)
  }

  lemma DifferenceStrays(e: Event, fs: seq<Filter>) returns (j: int, why: seq<Why>)
    requires MatchFilters(e, fs) && !AskedByAny(e, fs)
    ensures Strays(fs, j, why)
  {
    j :| 0 <= j < |fs| && MatchFilter(e, fs[j]);
    forall k | 0 <= k < |fs| ensures !MatchesInTime(e, fs[k], MatchTime) { assert !Asked(e, fs[k]); }
    why := seq(|fs|, k requires 0 <= k < |fs| => Reason(e, fs[k], MatchTime));
    FieldsOfARejection(e, fs, fs[j], fs[j], why, MatchTime);
    assert OutOfTime(fs, why, e.createdAt);
  }

  lemma StrayShows(fs: seq<Filter>, j: int, why: seq<Why>) returns (e: Event)
    requires Strays(fs, j, why)
    ensures MatchFilters(e, fs) && !AskedByAny(e, fs)
  {
    var time :| OutOfTime(fs, why, time);
    e := EscapingEvent(fs, fs[j], fs[j], why, time);
    forall k | 0 <= k < |fs| ensures !Asked(e, fs[k]) {
      if !why[k].ByTime? { assert Rejects(fs[k], e, why[k], true); }
    }
  }

  /** Matching respects the bounds of a list of filters if and only if nothing strays from them. */
  lemma TimeIsRespectedIff(fs: seq<Filter>)
    ensures RespectsTime(fs) <==> forall j, why :: !Strays(fs, j, why)
  {
    if exists j, why :: Strays(fs, j, why) {
      var j, why :| Strays(fs, j, why);
      var e := StrayShows(fs, j, why);
    }
    if !RespectsTime(fs) {
      var e :| MatchFilters(e, fs) && !AskedByAny(e, fs);
      var j, why := DifferenceStrays(e, fs);
    }
  }

  /** The bounds shut out no time at all. */
  predicate Boundless(f: Filter) {
    (f.since.Some? ==> f.since.value == 0) && (f.until.Some? ==> f.until.value == MAX_TIME)
  }

  /** For one filter: if and only if its bounds shut out nothing. */
  lemma OneFilterRespectsTimeIff(f: Filter)
    requires WellTagged(f)
    ensures RespectsTime([f]) <==> Boundless(f)
  {
    var fs := [f];
    if !Boundless(f) {
      var e := MatchingEvent(f, if f.since.Some? && f.since.value > 0 then 0 else MAX_TIME);
      assert MatchFilter(e, fs[0]) && !MatchTime(f, e.createdAt);
      assert MatchFilters(e, fs) && !AskedByAny(e, fs);
    }
    if Boundless(f) {
      forall e | MatchFilters(e, fs) ensures AskedByAny(e, fs) {
        assert MatchFilter(e, f) && MatchTime(f, e.createdAt);
        assert Asked(e, fs[0]);
      }
    }
  }

  /** A subscription is only forwarded events it asks for, bounds included. */
  ghost predicate ForwardsAsAsked(s: SubscriptionTable.Request)
    requires AllParse(Normalise, s.filters)
  {
    forall e :: Interested(s, e) ==> AskedByAny(e, Parsed(Normalise, s.filters))
  }

  lemma ForwardingIsMatching(s: SubscriptionTable.Request)
    requires AllParse(Normalise, s.filters)
    ensures ForwardsAsAsked(s) <==> RespectsTime(Parsed(Normalise, s.filters))
  {
    assert forall e :: Interested(s, e) <==> MatchFilters(e, Parsed(Normalise, s.filters));
  }

  /** So for any subscription whose filters parse. */
  lemma ForwardingRespectsTimeIff(s: SubscriptionTable.Request)
    requires AllParse(Normalise, s.filters)
    ensures ForwardsAsAsked(s) <==> forall j, why :: !Strays(Parsed(Normalise, s.filters), j, why)
  {
    ForwardingIsMatching(s);
    TimeIsRespectedIff(Parsed(Normalise, s.filters));
  }

  /** And for one with a single filter by its bounds alone. */
  lemma OneFilterForwardsAsAskedIff(id: string, raw: FilterOnWire)
    requires Normalise(raw).Ok?
    ensures ForwardsAsAsked(SubscriptionTable.Request(id, [raw])) <==> Boundless(Normalise(raw).value)
  {
    var filters := [raw];
    ParsedAt(Normalise, filters, 0);
    ForwardingIsMatching(SubscriptionTable.Request(id, filters));
    assert Parsed(Normalise, filters) == [Normalise(raw).value];
    NormalFiltersAreWellTagged(raw);
    OneFilterRespectsTimeIff(Normalise(raw).value);
  }

  /** A subscription to what was created up to time 10 is forwarded every later event. */
  method ForwardedTooLate(ev: EventOnWire, idHash: EventOnWire -> Bytes32, now: Timestamp, id: string)
    returns (found: Result<string>)
    requires Index(ev, idHash, now).Ok? && ev.createdAt > 10
    ensures found == Ok(id) && Normalise(QueryExactness.TOO_EARLY).Ok?
    ensures !AskedByAny(Index(ev, idHash, now).value, [Normalise(QueryExactness.TOO_EARLY).value])
  {
    var filter := QueryExactness.TOO_EARLY;
    var s := SubscriptionTable.Request(id, [filter]);
    var e := Index(ev, idHash, now).value;
    QueryExactness.NoWantedTags();
    ParsedAt(Normalise, s.filters, 0);
    assert MatchFilter(e, Parsed(Normalise, s.filters)[0]);
    assert Interested(s, e);
    var table := map[id := s];
    found := FindInterested(table, e);
    assert Interested(table[id], e) && forall key :: key in table ==> key == id;
  }

  // ---------------------------------------------------------------- queries

  /** The query's test differs from `match_time` at the bounds themselves and, without bounds, at time 0. */
  lemma StrictTimeDiffersAtBounds(f: Filter, t: Timestamp)
    ensures SqlMeaning.TimeTest(f, t) <==> MatchTime(f, t) && Some(t) != f.since && Some(t) != f.until
                                           && (f.since.None? && f.until.None? ==> t != 0)
  {
  }

  /** A time the bounds allow and the query's test does not. */
  lemma MissedTime(f: Filter) returns (t: Timestamp)
    requires !(f.since.Some? && f.until.Some? && f.since.value > f.until.value)
    ensures MatchTime(f, t) && !SqlMeaning.TimeTest(f, t)
  {
    t := match (f.since, f.until) case (Some(since), _) => since case (None, Some(until)) => until case _ => 0;
  }

  /** A query with one filter returns exactly what it asks for, bounds included. */
  ghost predicate QueriesAsAsked(f: Filter) {
    forall stored :: Query.QueryByFilters(stored, [f]) == Return(Ok(Query.Select(e => Asked(e, f), stored)))
  }

  /** An event that a filter asks for at a time its query misses is not returned. */
  lemma MissedEvent(e: Event, f: Filter)
    requires Asked(e, f) && !SqlMeaning.TimeTest(f, e.createdAt)
    ensures Query.QueryByFilters([e], [f]) == Return(Ok([])) && Query.Select(x => Asked(x, f), [e]) == [e]
  {
    Query.OneFilterIsExact([e], f);
    Query.SelectOne(x => Query.FullMatch(x, f), e);
    Query.SelectOne(x => Asked(x, f), e);
  }

  /** A query with one filter returns what it asks for on every database only when the filter asks for
      nothing: if and only if its bounds exclude every time. */
  lemma QueriesAsAskedIff(f: Filter)
    requires WellTagged(f)
    ensures QueriesAsAsked(f) <==> f.since.Some? && f.until.Some? && f.since.value > f.until.value
  {
    if f.since.Some? && f.until.Some? && f.since.value > f.until.value {
      forall stored ensures Query.QueryByFilters(stored, [f]) == Return(Ok(Query.Select(e => Asked(e, f), stored))) {
        Query.OneFilterIsExact(stored, f);
        Query.SelectSame(e => Query.FullMatch(e, f), e => Asked(e, f), stored);
      }
    } else {
      var t := MissedTime(f);
      var e := MatchingEvent(f, t);
      MissedEvent(e, f);
    }
  }

  /** An event created exactly at a filter's `since` is asked for and not returned. */
  lemma EventAtSinceIsMissed(e: Event, f: Filter)
    requires MatchFilter(e, f) && f.since == Some(e.createdAt) && (f.until.Some? ==> e.createdAt <= f.until.value)
    ensures Asked(e, f) && Query.QueryByFilters([e], [f]) == Return(Ok([]))
  {
    MissedEvent(e, f);
  }
}
