/** The query builder and the query with its post-filter (nostr-surreal-db/src/sql_builder/query.rs,
    sql_builder/mod.rs, db.rs). */
module Query {
  import opened Common
  import Wire
  import opened Filters
  import opened SqlGrammar
  import opened SqlQuery
  import SqlMeaning
  import Decimal

  const SELECT: string := "SELECT *, meta::id(id) as id FROM nostr_events WHERE "

  lemma {:induction false} JoinMore(parts: seq<string>, part: string)
    ensures Join(parts + [part], "") == Join(parts, "") + part
  {
    if parts == [] {
      assert parts + [part] == [part];
    } else {
      JoinMore(parts[1..], part);
      assert (parts + [part])[1..] == parts[1..] + [part];
      if |parts| == 1 { assert parts[1..] == []; }
    }
  }

  lemma {:induction false} ListedMore(items: seq<Token>, item: Token)
    ensures ItemsText(items + [item]) == ItemsText(items) + (Spell(item) + ",")
  {
    if items == [] {
      OneItemText(item);
      assert items + [item] == [item];
    } else {
      ListedMore(items[1..], item);
      assert (items + [item])[1..] == items[1..] + [item];
      var head := [items[0], Symbol(',')];
      SpellConcat(head, Listed(items[1..] + [item]));
      SpellConcat(head, Listed(items[1..]));
      Associate(SpellAll(head), ItemsText(items[1..]), Spell(item) + ",");
    }
  }

  class SqlBuilder {
    var sql: seq<string>

    constructor ()
      ensures sql == []
    {
      sql := [];
    }

    method PushSql(text: string)
      modifies this
      ensures sql == old(sql) + [text]
    {
      sql := sql + [text];
    }

    function Build(): string
      reads this
    {
      Join(sql, "\n")
    }

    static method ListText(items: seq<Token>) returns (text: string)
      requires Items(items)
      ensures text == ItemsText(items)
    {
      var parts: seq<string> := [];
      for i := 0 to |items|
        invariant Join(parts, "") == ItemsText(items[..i])
      {
        JoinMore(parts, Spell(items[i]) + ",");
        ListedMore(items[..i], items[i]);
        assert items[..i + 1] == items[..i] + [items[i]];
        parts := parts + [Spell(items[i]) + ","];
      }
      assert items[..|items|] == items;
      text := Join(parts, "");
    }

    /** Adds the condition that a field is one of `items`. */
    static method AddList(conditions: seq<string>, opening: string, items: seq<Token>,
                          ghost done: seq<Conjunct>, ghost c: Conjunct)
      returns (more: seq<string>)
      requires Items(items) && conditions == Map(TextOf, done)
      requires TextOf(c) == opening + ItemsText(items) + "]"
      ensures more == Map(TextOf, done + [c])
    {
      var list := ListText(items);
      MapLast(TextOf, done, c);
      more := conditions + [opening + list + "]"];
    }

    static method AddIds(f: Filter) returns (conditions: seq<string>)
      ensures conditions == Map(TextOf, IdPart(f))
    {
      conditions := [];
      if f.ids != [] {
        ItemsOfIds(f.ids);
        conditions := AddList(conditions, "meta::id(id) in [", Map(IdToken, f.ids), [], IdIn(f.ids));
      }
    }

    static method AddSenders(conditions: seq<string>, f: Filter, ghost done: seq<Conjunct>) returns (more: seq<string>)
      requires conditions == Map(TextOf, done)
      ensures more == Map(TextOf, done + SenderPart(f))
    {
      more := conditions;
      if f.authors != [] {
        ItemsOfSenders(f.authors);
        more := AddList(conditions, "sender in [", Map(SenderToken, f.authors), done, SenderIn(f.authors));
      }
    }

    static method AddKinds(conditions: seq<string>, f: Filter, ghost done: seq<Conjunct>) returns (more: seq<string>)
      requires conditions == Map(TextOf, done)
      ensures more == Map(TextOf, done + KindPart(f))
    {
      more := conditions;
      if f.kinds != [] {
        ItemsOfKinds(f.kinds);
        more := AddList(conditions, "kind in [", Map(KindToken, f.kinds), done, KindIn(f.kinds));
      }
    }

    /** `build_one_filter`: the conjuncts of one filter, ids, senders and kinds only when listed. */
    static method BuildOneFilter(f: Filter) returns (conditions: seq<string>)
      ensures conditions == Map(TextOf, Conjuncts(f))
    {
      conditions := AddIds(f);
      conditions := AddSenders(conditions, f, IdPart(f));
      conditions := AddKinds(conditions, f, IdPart(f) + SenderPart(f));
      var timeText := TimeText(f.since, f.until);
      MapLast(TextOf, IdPart(f) + SenderPart(f) + KindPart(f), TimeConjunct(f));
      conditions := conditions + [timeText];
    }

    static method TimeText(since: Option<Wire.Timestamp>, until: Option<Wire.Timestamp>) returns (text: string)
      ensures text == TextOf(TimeConjunct(Filter([], [], [], since, until, None, map[])))
    {
      var time: seq<string> := [];
      if since.Some? {
        time := time + ["created_at > " + Decimal.Print(since.value)];
      }
      if until.Some? {
        time := time + ["created_at < " + Decimal.Print(until.value)];
      }
      text :=
        if |time| == 0 then "created_at > 0"
        else if |time| == 1 then time[0]
        else "(" + time[0] + " AND " + time[1] + ")";
      assert Decimal.Print(0) == "0";
    }

    /** `get_events_by_filters`; an empty list of filters panics. */
    method GetEventsByFilters(fs: seq<Filter>)
      requires fs != []
      modifies this
      ensures sql == old(sql) + [SELECT + WhereText(fs) + ";"]
      ensures old(sql) == [] ==>
        Build() == "SELECT *, meta::id(id) as id FROM nostr_events WHERE " + WhereText(fs) + ";"
    {
      var all: seq<string> := [];
      for i := 0 to |fs|
        invariant all == Map(FilterText, fs[..i]) && sql == old(sql)
      {
        var conditions := BuildOneFilter(fs[i]);
        assert fs[..i + 1] == fs[..i] + [fs[i]];
        MapLast(FilterText, fs[..i], fs[i]);
        all := all + ["(" + Join(conditions, " AND ") + ")"];
      }
      assert fs[..|fs|] == fs;
      PushSql(SELECT + Join(all, " OR ") + ";");
    }
  }

  // ---------------------------------------------------------------- the query

  function Select(p: Event -> bool, events: seq<Event>): seq<Event> {
    if events == [] then []
    else (if p(events[0]) then [events[0]] else []) + Select(p, events[1..])
  }

  /** `query_by_filters` over the stored events: the WHERE text picks, then the filters are matched again.
      No filters is a panic; a text the database cannot read is an error. */
  function QueryByFilters(stored: seq<Event>, fs: seq<Filter>): Outcome<Result<seq<Event>>> {
    if fs == [] then Panic
    else
      Return(match ParseCondition(WhereText(fs))
        case None => Err
        case Some(c) => Ok(Select(e => MatchFilters(e, fs), Select(e => Holds(c, e), stored))))
  }

  /** An event that a filter fully matches, time included. */
  predicate FullMatch(e: Event, f: Filter) {
    MatchFilter(e, f) && SqlMeaning.TimeTest(f, e.createdAt)
  }

  predicate Chosen(e: Event, fs: seq<Filter>) {
    (exists i :: 0 <= i < |fs| && SqlMeaning.Prefilter(e, fs[i])) && MatchFilters(e, fs)
  }

  /** Selecting keeps the order and the number of the events, and exactly those that pass. */
  lemma {:induction false} SelectConcat(p: Event -> bool, a: seq<Event>, b: seq<Event>)
    ensures Select(p, a + b) == Select(p, a) + Select(p, b)
  {
    if a == [] {
      assert a + b == b;
    } else {
      SelectConcat(p, a[1..], b);
      assert (a + b)[1..] == a[1..] + b;
      Associate(if p(a[0]) then [a[0]] else [], Select(p, a[1..]), Select(p, b));
    }
  }

  lemma SelectOne(p: Event -> bool, e: Event)
    ensures Select(p, [e]) == if p(e) then [e] else []
  {
  }

  lemma {:induction false} SelectTwice(p: Event -> bool, q: Event -> bool, r: Event -> bool, events: seq<Event>)
    requires forall e :: r(e) <==> p(e) && q(e)
    ensures Select(q, Select(p, events)) == Select(r, events)
  {
    if events != [] {
      SelectTwice(p, q, r, events[1..]);
      if p(events[0]) {
        assert ([events[0]] + Select(p, events[1..]))[1..] == Select(p, events[1..]);
      } else {
        assert [] + Select(p, events[1..]) == Select(p, events[1..]);
      }
    }
  }

  lemma {:induction false} SelectSame(p: Event -> bool, q: Event -> bool, events: seq<Event>)
    requires forall e :: p(e) <==> q(e)
    ensures Select(p, events) == Select(q, events)
  {
    if events != [] { SelectSame(p, q, events[1..]); }
  }

  /** A query never fails, and returns in their stored order exactly the events that one filter picks by
      id, author, kind and time and that one filter, possibly another, matches. */
  lemma QuerySelects(stored: seq<Event>, fs: seq<Filter>)
    requires fs != []
    ensures QueryByFilters(stored, fs) == Return(Ok(Select(e => Chosen(e, fs), stored)))
  {
    SqlMeaning.WhereTextParses(fs);
    var c := ParseCondition(WhereText(fs)).value;
    forall e ensures Chosen(e, fs) <==> Holds(c, e) && MatchFilters(e, fs) { SqlMeaning.AnyHolds(fs, e); }
    var p, q, r := (e: Event) => Holds(c, e), (e: Event) => MatchFilters(e, fs), (e: Event) => Chosen(e, fs);
    SelectTwice(p, q, r, stored);
  }

  /** With one filter the query is exact. */
  lemma OneFilterIsExact(stored: seq<Event>, f: Filter)
    ensures QueryByFilters(stored, [f]) == Return(Ok(Select(e => FullMatch(e, f), stored)))
    ensures QueryByFilters(stored, []) == Panic
  {
    QuerySelects(stored, [f]);
    forall e ensures Chosen(e, [f]) <==> FullMatch(e, f) { ChosenByOne(e, f); }
    SelectSame(e => Chosen(e, [f]), e => FullMatch(e, f), stored);
  }

  lemma ChosenByOne(e: Event, f: Filter)
    ensures Chosen(e, [f]) <==> FullMatch(e, f)
  {
    if FullMatch(e, f) {
      assert SqlMeaning.Prefilter(e, [f][0]) && MatchFilter(e, [f][0]);
    }
  }

  /** On raw data: a stored event is returned for a wire filter exactly when it is what the filter asks for
      and passes the strict time test. */
  lemma QueryMeansRawRequest(ev: Wire.EventOnWire, f: Wire.FilterOnWire,
                             idHash: Wire.EventOnWire -> Bytes32, now: Wire.Timestamp)
    requires Index(ev, idHash, now).Ok? && Normalise(f).Ok?
    ensures var e, g := Index(ev, idHash, now).value, Normalise(f).value;
      Chosen(e, [g]) <==> RawMatch(ev, f) && SqlMeaning.TimeTest(g, ev.createdAt)
  {
    ChosenByOne(Index(ev, idHash, now).value, Normalise(f).value);
    IndexingPreservesMeaning(ev, f, idHash, now);
  }

  /** With several, every event that some filter fully matches is chosen, and none that matches no filter. */
  lemma ManyFiltersAreCloseToExact(e: Event, fs: seq<Filter>)
    ensures (exists i :: 0 <= i < |fs| && FullMatch(e, fs[i])) ==> Chosen(e, fs)
    ensures Chosen(e, fs) ==> MatchFilters(e, fs)
  {
  }
}
