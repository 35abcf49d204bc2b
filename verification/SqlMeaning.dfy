/** What the text of a query means: it parses, and it holds of exactly the events that pass the id,
    author, kind and strict time tests of one of the filters. */
module SqlMeaning {
  import opened Common
  import Senders
  import opened Wire
  import opened Filters
  import opened SqlGrammar
  import opened SqlQuery

  function ConditionOf(c: Conjunct): Condition {
    match c
    case IdIn(ids) => In(IdField, Map(IdToken, ids))
    case SenderIn(senders) => In(SenderField, Map(SenderToken, senders))
    case KindIn(kinds) => In(KindField, Map(KindToken, kinds))
    case After(t) => Above(TimeField, t)
    case Until(t) => Below(TimeField, t)
    case Within(t, t') => And(Above(TimeField, t), Below(TimeField, t'))
  }

  function AllOf(cs: seq<Conjunct>): Condition
    requires cs != []
  {
    if |cs| == 1 then ConditionOf(cs[0]) else And(ConditionOf(cs[0]), AllOf(cs[1..]))
  }

  function AnyOf(fs: seq<Filter>): Condition
    requires fs != []
  {
    if |fs| == 1 then AllOf(Conjuncts(fs[0])) else Or(AllOf(Conjuncts(fs[0])), AnyOf(fs[1..]))
  }

  // ---------------------------------------------------------------- visible tokens

  function SeenList(items: seq<Token>): seq<Token> {
    [Word("in"), Symbol('[')] + (Listed(items) + [Symbol(']')])
  }

  function SeenAfter(t: Timestamp): seq<Token> { [Word("created_at"), Symbol('>'), Number(t)] }
  function SeenUntil(t: Timestamp): seq<Token> { [Word("created_at"), Symbol('<'), Number(t)] }

  function SeenOf(c: Conjunct): seq<Token> {
    match c
    case IdIn(ids) => META_ID + SeenList(Map(IdToken, ids))
    case SenderIn(senders) => SENDER + SeenList(Map(SenderToken, senders))
    case KindIn(kinds) => KIND + SeenList(Map(KindToken, kinds))
    case After(t) => SeenAfter(t)
    case Until(t) => SeenUntil(t)
    case Within(t, t') => Bracketed(SeenAfter(t) + [Word("AND")] + SeenUntil(t'))
  }

  function SeenAll(cs: seq<Conjunct>): seq<Token>
    requires cs != []
  {
    if |cs| == 1 then SeenOf(cs[0]) else SeenOf(cs[0]) + [Word("AND")] + SeenAll(cs[1..])
  }

  function SeenWhere(fs: seq<Filter>): seq<Token>
    requires fs != []
  {
    var first := Bracketed(SeenAll(Conjuncts(fs[0])));
    if |fs| == 1 then first else first + [Word("OR")] + SeenWhere(fs[1..])
  }

  lemma VisibleConnectives()
    ensures Visible(IN) == [Word("in"), Symbol('[')] && Visible(AND) == [Word("AND")] && Visible(OR) == [Word("OR")]
  {
  }

  lemma VisibleOne(t: Token)
    requires !t.Blank?
    ensures Visible([t]) == [t]
  {
  }

  lemma {:induction false} VisibleListed(items: seq<Token>)
    requires Items(items)
    ensures Visible(Listed(items)) == Listed(items)
  {
    if items != [] {
      VisibleListed(items[1..]);
      VisibleOne(items[0]);
      VisibleOne(Symbol(','));
      assert [items[0], Symbol(',')] == [items[0]] + [Symbol(',')];
      VisibleConcat([items[0]], [Symbol(',')]);
      VisibleConcat([items[0], Symbol(',')], Listed(items[1..]));
    }
  }

  lemma Regroup<T>(a: seq<T>, b: seq<T>, c: seq<T>, d: seq<T>)
    ensures a + b + c + d == a + (b + (c + d))
  {
  }

  lemma VisibleListing(field: seq<Token>, items: seq<Token>)
    requires Items(items) && Visible(field) == field
    ensures Visible(Listing(field, items)) == field + SeenList(items)
  {
    VisibleConnectives();
    VisibleListed(items);
    VisibleOne(Symbol(']'));
    VisibleConcat(field + IN + Listed(items), [Symbol(']')]);
    VisibleConcat(field + IN, Listed(items));
    VisibleConcat(field, IN);
    Regroup(field, [Word("in"), Symbol('[')], Listed(items), [Symbol(']')]);
  }

  lemma VisibleBracketed(ts: seq<Token>)
    ensures Visible(Bracketed(ts)) == Bracketed(Visible(ts))
  {
    VisibleOne(Symbol('('));
    VisibleOne(Symbol(')'));
    VisibleConcat([Symbol('(')] + ts, [Symbol(')')]);
    VisibleConcat([Symbol('(')], ts);
  }

  lemma VisibleTimes(t: Timestamp)
    ensures Visible(AfterTokens(t)) == SeenAfter(t) && Visible(UntilTokens(t)) == SeenUntil(t)
  {
    VisibleOne(Number(t));
    VisibleConcat(ABOVE, [Number(t)]);
    VisibleConcat(BELOW, [Number(t)]);
  }

  lemma VisibleWithin(t: Timestamp, t': Timestamp)
    ensures Visible(Bracketed(AfterTokens(t) + AND + UntilTokens(t')))
         == Bracketed(SeenAfter(t) + [Word("AND")] + SeenUntil(t'))
  {
    VisibleConnectives();
    VisibleTimes(t);
    VisibleTimes(t');
    VisibleBracketed(AfterTokens(t) + AND + UntilTokens(t'));
    VisibleConcat(AfterTokens(t) + AND, UntilTokens(t'));
    VisibleConcat(AfterTokens(t), AND);
  }

  lemma VisibleConjunct(c: Conjunct)
    ensures Visible(TokensOf(c)) == SeenOf(c)
  {
    match c
    case IdIn(ids) =>
      ItemsOfIds(ids);
      VisibleListing(META_ID, Map(IdToken, ids));
    case SenderIn(senders) =>
      ItemsOfSenders(senders);
      VisibleListing(SENDER, Map(SenderToken, senders));
    case KindIn(kinds) =>
      ItemsOfKinds(kinds);
      VisibleListing(KIND, Map(KindToken, kinds));
    case After(t) => VisibleTimes(t);
    case Until(t) => VisibleTimes(t);
    case Within(t, t') => VisibleWithin(t, t');
  }

  lemma {:induction false} VisibleConjuncts(cs: seq<Conjunct>)
    requires cs != []
    ensures Visible(AllTokens(cs)) == SeenAll(cs)
  {
    VisibleConjunct(cs[0]);
    if |cs| > 1 {
      VisibleConjuncts(cs[1..]);
      VisibleConnectives();
      VisibleConcat(TokensOf(cs[0]) + AND, AllTokens(cs[1..]));
      VisibleConcat(TokensOf(cs[0]), AND);
    }
  }

  lemma {:induction false} VisibleWhere(fs: seq<Filter>)
    requires fs != []
    ensures Visible(WhereTokens(fs)) == SeenWhere(fs)
  {
    VisibleConjuncts(Conjuncts(fs[0]));
    VisibleBracketed(AllTokens(Conjuncts(fs[0])));
    if |fs| > 1 {
      VisibleWhere(fs[1..]);
      VisibleConnectives();
      VisibleConcat(FilterTokens(fs[0]) + OR, WhereTokens(fs[1..]));
      VisibleConcat(FilterTokens(fs[0]), OR);
    }
  }

  // ---------------------------------------------------------------- parsing

  lemma {:induction false} ItemsParse(items: seq<Token>, rest: seq<Token>)
    requires Items(items)
    ensures ParseItems(Listed(items) + ([Symbol(']')] + rest)) == Parse(items, rest)
  {
    var toks := Listed(items) + ([Symbol(']')] + rest);
    if items == [] {
      assert toks == [Symbol(']')] + rest && toks[1..] == rest;
    } else {
      ItemsParse(items[1..], rest);
      assert toks[0] == items[0] && toks[1] == Symbol(',');
      assert toks[2..] == Listed(items[1..]) + ([Symbol(']')] + rest);
      assert items == [items[0]] + items[1..];
    }
  }

  lemma ListPieces(items: seq<Token>, rest: seq<Token>)
    ensures var after := SeenList(items) + rest;
      && |after| >= 2 && after[0] == Word("in") && after[1] == Symbol('[')
      && after[2..] == Listed(items) + ([Symbol(']')] + rest)
  {
  }

  lemma ListTestParses(toks: seq<Token>, field: Field, items: seq<Token>, rest: seq<Token>)
    requires Items(items) && ParseField(toks) == Parse(field, SeenList(items) + rest)
    ensures ParseTest(toks) == Parse(In(field, items), rest)
  {
    ItemsParse(items, rest);
    ListPieces(items, rest);
  }

  lemma AfterParses(t: Timestamp, rest: seq<Token>)
    ensures ParsePrimary(SeenAfter(t) + rest) == Parse(Above(TimeField, t), rest)
  {
  }

  lemma UntilParses(t: Timestamp, rest: seq<Token>)
    ensures ParsePrimary(SeenUntil(t) + rest) == Parse(Below(TimeField, t), rest)
  {
  }

  /** What may follow a conjunction: not AND; and a disjunction: not OR. */
  predicate EndsAnd(rest: seq<Token>) { rest == [] || rest[0] != Word("AND") }
  predicate EndsOr(rest: seq<Token>) { EndsAnd(rest) && (rest == [] || rest[0] != Word("OR")) }

  lemma AndParses(toks: seq<Token>, left: Condition, more: seq<Token>, right: Condition, rest: seq<Token>)
    requires ParsePrimary(toks) == Parse(left, [Word("AND")] + more)
    requires ParseAnd(more) == Parse(right, rest)
    ensures ParseAnd(toks) == Parse(And(left, right), rest)
  {
  }

  lemma AndEnds(toks: seq<Token>, c: Condition, rest: seq<Token>)
    requires ParsePrimary(toks) == Parse(c, rest) && EndsAnd(rest)
    ensures ParseAnd(toks) == Parse(c, rest)
  {
  }

  lemma OrEnds(toks: seq<Token>, c: Condition, rest: seq<Token>)
    requires ParseAnd(toks) == Parse(c, rest) && EndsOr(rest)
    ensures ParseOr(toks) == Parse(c, rest)
  {
  }

  lemma BracketParses(ts: seq<Token>, c: Condition, rest: seq<Token>)
    requires ParseOr(ts + ([Symbol(')')] + rest)) == Parse(c, [Symbol(')')] + rest)
    ensures ParsePrimary(Bracketed(ts) + rest) == Parse(c, rest)
  {
    var toks := Bracketed(ts) + rest;
    assert toks[0] == Symbol('(') && toks[1..] == ts + ([Symbol(')')] + rest);
    assert ([Symbol(')')] + rest)[1..] == rest;
  }

  lemma WithinParses(t: Timestamp, t': Timestamp, rest: seq<Token>)
    ensures ParsePrimary(Bracketed(SeenAfter(t) + [Word("AND")] + SeenUntil(t')) + rest)
         == Parse(And(Above(TimeField, t), Below(TimeField, t')), rest)
  {
    var close := [Symbol(')')] + rest;
    var inside := SeenAfter(t) + [Word("AND")] + SeenUntil(t');
    AfterParses(t, [Word("AND")] + (SeenUntil(t') + close));
    UntilParses(t', close);
    AndEnds(SeenUntil(t') + close, Below(TimeField, t'), close);
    assert inside + close == SeenAfter(t) + ([Word("AND")] + (SeenUntil(t') + close));
    AndParses(inside + close, Above(TimeField, t), SeenUntil(t') + close, Below(TimeField, t'), close);
    OrEnds(inside + close, And(Above(TimeField, t), Below(TimeField, t')), close);
    BracketParses(inside, And(Above(TimeField, t), Below(TimeField, t')), rest);
  }

  lemma ListParses(field: seq<Token>, f: Field, items: seq<Token>, rest: seq<Token>)
    requires Items(items) && field != [] && field[0] != Symbol('(')
    requires ParseField(field + (SeenList(items) + rest)) == Parse(f, SeenList(items) + rest)
    ensures ParsePrimary(field + SeenList(items) + rest) == Parse(In(f, items), rest)
  {
    assert field + SeenList(items) + rest == field + (SeenList(items) + rest);
    ListTestParses(field + (SeenList(items) + rest), f, items, rest);
  }

  lemma ConjunctParses(c: Conjunct, rest: seq<Token>)
    ensures ParsePrimary(SeenOf(c) + rest) == Parse(ConditionOf(c), rest)
  {
    match c
    case IdIn(ids) =>
      ItemsOfIds(ids);
      ListParses(META_ID, IdField, Map(IdToken, ids), rest);
    case SenderIn(senders) =>
      ItemsOfSenders(senders);
      ListParses(SENDER, SenderField, Map(SenderToken, senders), rest);
    case KindIn(kinds) =>
      ItemsOfKinds(kinds);
      ListParses(KIND, KindField, Map(KindToken, kinds), rest);
    case After(t) => AfterParses(t, rest);
    case Until(t) => UntilParses(t, rest);
    case Within(t, t') => WithinParses(t, t', rest);
  }

  lemma OneMoreConjunct(c: Conjunct, ts: seq<Token>, right: Condition, rest: seq<Token>)
    requires ParseAnd(ts + rest) == Parse(right, rest)
    ensures ParseAnd(SeenOf(c) + [Word("AND")] + ts + rest) == Parse(And(ConditionOf(c), right), rest)
  {
    ConjunctParses(c, [Word("AND")] + (ts + rest));
    Regroup(SeenOf(c), [Word("AND")], ts, rest);
    AndParses(SeenOf(c) + ([Word("AND")] + (ts + rest)), ConditionOf(c), ts + rest, right, rest);
  }

  lemma {:induction false} ConjunctsParse(cs: seq<Conjunct>, rest: seq<Token>)
    requires cs != [] && EndsAnd(rest)
    ensures ParseAnd(SeenAll(cs) + rest) == Parse(AllOf(cs), rest)
  {
    if |cs| == 1 {
      ConjunctParses(cs[0], rest);
      AndEnds(SeenAll(cs) + rest, AllOf(cs), rest);
    } else {
      ConjunctsParse(cs[1..], rest);
      OneMoreConjunct(cs[0], SeenAll(cs[1..]), AllOf(cs[1..]), rest);
    }
  }

  lemma FilterParses(f: Filter, rest: seq<Token>)
    requires EndsAnd(rest)
    ensures ParseAnd(Bracketed(SeenAll(Conjuncts(f))) + rest) == Parse(AllOf(Conjuncts(f)), rest)
  {
    var cs, close := Conjuncts(f), [Symbol(')')] + rest;
    ConjunctsParse(cs, close);
    OrEnds(SeenAll(cs) + close, AllOf(cs), close);
    BracketParses(SeenAll(cs), AllOf(cs), rest);
    AndEnds(Bracketed(SeenAll(cs)) + rest, AllOf(cs), rest);
  }

  lemma OneMoreFilter(f: Filter, ts: seq<Token>, right: Condition, rest: seq<Token>)
    requires ParseOr(ts + rest) == Parse(right, rest)
    ensures ParseOr(Bracketed(SeenAll(Conjuncts(f))) + [Word("OR")] + ts + rest)
         == Parse(Or(AllOf(Conjuncts(f)), right), rest)
  {
    var first := Bracketed(SeenAll(Conjuncts(f)));
    FilterParses(f, [Word("OR")] + (ts + rest));
    Regroup(first, [Word("OR")], ts, rest);
  }

  lemma {:induction false} WhereParses(fs: seq<Filter>, rest: seq<Token>)
    requires fs != [] && EndsOr(rest)
    ensures ParseOr(SeenWhere(fs) + rest) == Parse(AnyOf(fs), rest)
  {
    if |fs| == 1 {
      FilterParses(fs[0], rest);
      OrEnds(SeenWhere(fs) + rest, AnyOf(fs), rest);
    } else {
      WhereParses(fs[1..], rest);
      OneMoreFilter(fs[0], SeenWhere(fs[1..]), AnyOf(fs[1..]), rest);
    }
  }

  /** The text parses with the usual precedence, to the disjunction of the filters' conjunctions. */
  lemma WhereTextParses(fs: seq<Filter>)
    requires fs != []
    ensures ParseCondition(WhereText(fs)) == Some(AnyOf(fs))
  {
    WhereReadsBack(fs);
    VisibleWhere(fs);
    WhereParses(fs, []);
    assert SeenWhere(fs) + [] == SeenWhere(fs);
  }

  // ---------------------------------------------------------------- meaning

  /** The strict time test of a query: without bounds, only that the time is positive. */
  predicate TimeTest(f: Filter, t: Timestamp) {
    && (f.since.Some? ==> t > f.since.value)
    && (f.until.Some? ==> t < f.until.value)
    && (f.since.None? && f.until.None? ==> t > 0)
  }

  /** What a query asks of an event for one filter; tags do not take part. */
  predicate Prefilter(e: Event, f: Filter) {
    && (f.ids == [] || e.id in f.ids)
    && (f.authors == [] || e.sender in f.authors)
    && (f.kinds == [] || e.kind in f.kinds)
    && TimeTest(f, e.createdAt)
  }

  lemma HexInjective(a: seq<byte>, b: seq<byte>)
    ensures HexEncode(a) == HexEncode(b) <==> a == b
  {
    HexRoundTrip(a);
    HexRoundTrip(b);
  }

  lemma IdListed(e: Event, ids: seq<Bytes32>)
    ensures FieldOf(e, IdField) in Map(IdToken, ids) <==> e.id in ids
  {
    var items := Map(IdToken, ids);
    if FieldOf(e, IdField) in items {
      var i :| 0 <= i < |items| && items[i] == FieldOf(e, IdField);
      assert items[i] == IdToken(ids[i]);
      HexInjective(ids[i], e.id);
    }
    if e.id in ids {
      var i :| 0 <= i < |ids| && ids[i] == e.id;
      assert items[i] == IdToken(ids[i]);
      assert items[i] == FieldOf(e, IdField);
    }
  }

  lemma SenderListed(e: Event, senders: seq<Senders.Sender>)
    ensures FieldOf(e, SenderField) in Map(SenderToken, senders) <==> e.sender in senders
  {
    var items := Map(SenderToken, senders);
    if FieldOf(e, SenderField) in items {
      var i :| 0 <= i < |items| && items[i] == FieldOf(e, SenderField);
      assert items[i] == SenderToken(senders[i]);
      HexInjective(senders[i].ToBytes(), e.sender.ToBytes());
      assert senders[i].ToBytes() == e.sender.ToBytes();
      Senders.PrefixFree(senders[i], e.sender);
    }
    if e.sender in senders {
      var i :| 0 <= i < |senders| && senders[i] == e.sender;
      assert items[i] == SenderToken(senders[i]);
      assert items[i] == FieldOf(e, SenderField);
    }
  }

  lemma KindListed(e: Event, kinds: seq<uint16>)
    ensures FieldOf(e, KindField) in Map(KindToken, kinds) <==> e.kind in kinds
  {
    var items := Map(KindToken, kinds);
    if FieldOf(e, KindField) in items {
      var i :| 0 <= i < |items| && items[i] == FieldOf(e, KindField);
      assert items[i] == KindToken(kinds[i]);
      assert kinds[i] == e.kind;
    }
    if e.kind in kinds {
      var i :| 0 <= i < |kinds| && kinds[i] == e.kind;
      assert items[i] == KindToken(kinds[i]);
      assert items[i] == FieldOf(e, KindField);
    }
  }

  lemma {:induction false} AllHold(cs: seq<Conjunct>, e: Event)
    requires cs != []
    ensures Holds(AllOf(cs), e) <==> forall i :: 0 <= i < |cs| ==> Holds(ConditionOf(cs[i]), e)
  {
    if |cs| > 1 {
      AllHold(cs[1..], e);
      assert cs == [cs[0]] + cs[1..];
    }
  }

  lemma ConjunctsOf(f: Filter, c: Conjunct)
    ensures c in Conjuncts(f) <==>
      || (c == IdIn(f.ids) && f.ids != []) || (c == SenderIn(f.authors) && f.authors != [])
      || (c == KindIn(f.kinds) && f.kinds != []) || c == TimeConjunct(f)
  {
  }

  /** Which conjuncts hold, and which tests pass. */
  lemma ConjunctHolds(f: Filter, e: Event)
    ensures Holds(ConditionOf(IdIn(f.ids)), e) <==> e.id in f.ids
    ensures Holds(ConditionOf(SenderIn(f.authors)), e) <==> e.sender in f.authors
    ensures Holds(ConditionOf(KindIn(f.kinds)), e) <==> e.kind in f.kinds
    ensures Holds(ConditionOf(TimeConjunct(f)), e) <==> TimeTest(f, e.createdAt)
  {
    IdListed(e, f.ids);
    SenderListed(e, f.authors);
    KindListed(e, f.kinds);
  }

  lemma PrefilterHolds(f: Filter, e: Event, c: Conjunct)
    requires Prefilter(e, f) && c in Conjuncts(f)
    ensures Holds(ConditionOf(c), e)
  {
    ConjunctHolds(f, e);
    ConjunctsOf(f, c);
  }

  lemma ConjunctsImplyPrefilter(f: Filter, e: Event)
    requires forall c :: c in Conjuncts(f) ==> Holds(ConditionOf(c), e)
    ensures Prefilter(e, f)
  {
    ConjunctHolds(f, e);
    ConjunctsOf(f, IdIn(f.ids));
    ConjunctsOf(f, SenderIn(f.authors));
    ConjunctsOf(f, KindIn(f.kinds));
    ConjunctsOf(f, TimeConjunct(f));
  }

  lemma FilterHolds(f: Filter, e: Event)
    ensures Holds(AllOf(Conjuncts(f)), e) <==> Prefilter(e, f)
  {
    var cs := Conjuncts(f);
    AllHold(cs, e);
    if Prefilter(e, f) {
      forall i | 0 <= i < |cs| ensures Holds(ConditionOf(cs[i]), e) { PrefilterHolds(f, e, cs[i]); }
    }
    if Holds(AllOf(cs), e) {
      ConjunctsImplyPrefilter(f, e);
    }
  }

  lemma {:induction false} AnyHolds(fs: seq<Filter>, e: Event)
    requires fs != []
    ensures Holds(AnyOf(fs), e) <==> exists i :: 0 <= i < |fs| && Prefilter(e, fs[i])
  {
    FilterHolds(fs[0], e);
    if |fs| > 1 {
      AnyHolds(fs[1..], e);
      assert fs == [fs[0]] + fs[1..];
      if Prefilter(e, fs[0]) { assert exists i :: 0 <= i < |fs| && Prefilter(e, fs[i]); }
      if exists i :: 0 <= i < |fs[1..]| && Prefilter(e, fs[1..][i]) {
        var i :| 0 <= i < |fs[1..]| && Prefilter(e, fs[1..][i]);
        assert Prefilter(e, fs[i + 1]);
      }
      if exists i :: 0 <= i < |fs| && Prefilter(e, fs[i]) {
        var i :| 0 <= i < |fs| && Prefilter(e, fs[i]);
        if i > 0 { assert Prefilter(e, fs[1..][i - 1]); }
      }
    }
  }

  /** For every non-empty list of filters the text of the query parses with the usual precedence, and it
      holds of exactly the events that pass the id, author, kind and strict time tests of a filter. */
  lemma WhereTextMeansPrefilters(fs: seq<Filter>, e: Event)
    requires fs != []
    ensures ParseCondition(WhereText(fs)).Some?
    ensures Holds(ParseCondition(WhereText(fs)).value, e) <==> exists i :: 0 <= i < |fs| && Prefilter(e, fs[i])
  {
    WhereTextParses(fs);
    AnyHolds(fs, e);
  }
}
