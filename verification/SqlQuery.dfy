/** Building the text of a query from filters, and what the text means
    (nostr-surreal-db/src/sql_builder/query.rs). */
module SqlQuery {
  import opened Common
  import Senders
  import opened Wire
  import opened Filters
  import opened SqlGrammar
  import Decimal

  /** One conjunct of a filter's condition. */
  datatype Conjunct =
    | IdIn(ids: seq<Bytes32>)
    | SenderIn(senders: seq<Senders.Sender>)
    | KindIn(kinds: seq<uint16>)
    | After(since: Timestamp)
    | Until(until: Timestamp)
    | Within(since: Timestamp, until: Timestamp)

  function IdToken(id: Bytes32): Token { Text(HexEncode(id)) }
  function SenderToken(s: Senders.Sender): Token { Text(HexEncode(s.ToBytes())) }
  function KindToken(kind: uint16): Token { Number(kind) }

  /** Every item is followed by a comma, the last one too. */
  function Listed(items: seq<Token>): seq<Token> {
    if items == [] then [] else [items[0], Symbol(',')] + Listed(items[1..])
  }

  function ItemsText(items: seq<Token>): string { SpellAll(Listed(items)) }

  function TextOf(c: Conjunct): string {
    match c
    case IdIn(ids) => "meta::id(id) in [" + ItemsText(Map(IdToken, ids)) + "]"
    case SenderIn(senders) => "sender in [" + ItemsText(Map(SenderToken, senders)) + "]"
    case KindIn(kinds) => "kind in [" + ItemsText(Map(KindToken, kinds)) + "]"
    case After(t) => AfterText(t)
    case Until(t) => UntilText(t)
    case Within(t, t') => "(" + AfterText(t) + " AND " + UntilText(t') + ")"
  }

  function AfterText(t: Timestamp): string { "created_at > " + Decimal.Print(t) }
  function UntilText(t: Timestamp): string { "created_at < " + Decimal.Print(t) }

  function TimeConjunct(f: Filter): Conjunct {
    match (f.since, f.until)
    case (None, None) => After(0)
    case (Some(t), None) => After(t)
    case (None, Some(t)) => Until(t)
    case (Some(t), Some(t')) => Within(t, t')
  }

  function Conjuncts(f: Filter): (cs: seq<Conjunct>)
    ensures cs != []
  {
    IdPart(f) + SenderPart(f) + KindPart(f) + [TimeConjunct(f)]
  }

  function IdPart(f: Filter): seq<Conjunct> { if f.ids == [] then [] else [IdIn(f.ids)] }
  function SenderPart(f: Filter): seq<Conjunct> { if f.authors == [] then [] else [SenderIn(f.authors)] }
  function KindPart(f: Filter): seq<Conjunct> { if f.kinds == [] then [] else [KindIn(f.kinds)] }

  function Join(parts: seq<string>, separator: string): string {
    if parts == [] then ""
    else if |parts| == 1 then parts[0]
    else parts[0] + separator + Join(parts[1..], separator)
  }

  function FilterText(f: Filter): string {
    "(" + Join(Map(TextOf, Conjuncts(f)), " AND ") + ")"
  }

  function WhereText(fs: seq<Filter>): string {
    Join(Map(FilterText, fs), " OR ")
  }

  // ---------------------------------------------------------------- the text of some filters

  lemma OneItemText(item: Token)
    ensures ItemsText([item]) == Spell(item) + ","
  {
    assert [item][1..] == [] && Listed([]) == [];
    assert Listed([item]) == [item, Symbol(',')];
    assert [item, Symbol(',')][1..] == [Symbol(',')] && [Symbol(',')][1..] == [];
    assert SpellAll([Symbol(',')]) == "," + SpellAll([]);
  }

  lemma JoinTwo(a: string, b: string, separator: string)
    ensures Join([a], separator) == a && Join([a, b], separator) == a + separator + b
  {
    assert [a, b][1..] == [b];
  }

  lemma TwoTexts(f: Filter, g: Filter)
    ensures WhereText([f, g]) == FilterText(f) + " OR " + FilterText(g)
  {
    assert Map(FilterText, [f, g]) == [FilterText(f), FilterText(g)];
    JoinTwo(FilterText(f), FilterText(g), " OR ");
  }

  lemma TwoConjuncts(f: Filter, c: Conjunct, d: Conjunct)
    requires Conjuncts(f) == [c, d]
    ensures var both := TextOf(c) + " AND " + TextOf(d); FilterText(f) == "(" + both + ")"
  {
    assert Map(TextOf, [c, d]) == [TextOf(c), TextOf(d)];
    JoinTwo(TextOf(c), TextOf(d), " AND ");
  }

  lemma OneItemTexts(id: Bytes32, author: Senders.Sender, kind: uint16)
    ensures ItemsText(Map(IdToken, [id])) == "'" + HexEncode(id) + "'" + ","
    ensures ItemsText(Map(SenderToken, [author])) == "'" + HexEncode(author.ToBytes()) + "'" + ","
    ensures ItemsText(Map(KindToken, [kind])) == Decimal.Print(kind) + ","
  {
    assert Map(IdToken, [id]) == [IdToken(id)];
    assert Map(SenderToken, [author]) == [SenderToken(author)];
    assert Map(KindToken, [kind]) == [KindToken(kind)];
    OneItemText(IdToken(id));
    OneItemText(SenderToken(author));
    OneItemText(KindToken(kind));
  }

  function Quoted(text: string): string { "'" + text + "'" }

  /** The conditions, in so many words. */
  lemma ListTexts(id: Bytes32, author: Senders.Sender, kind: uint16)
    ensures TextOf(IdIn([id])) == "meta::id(id) in [" + (Quoted(HexEncode(id)) + ",") + "]"
    ensures TextOf(SenderIn([author])) == "sender in [" + (Quoted(HexEncode(author.ToBytes())) + ",") + "]"
    ensures TextOf(KindIn([kind])) == "kind in [" + (Decimal.Print(kind) + ",") + "]"
  {
    OneItemTexts(id, author, kind);
  }

  lemma TimeTexts(since: Timestamp, until: Timestamp)
    ensures TextOf(After(since)) == "created_at > " + Decimal.Print(since)
    ensures TextOf(Until(until)) == "created_at < " + Decimal.Print(until)
    ensures TextOf(Within(since, until)) == "(" + TextOf(After(since)) + " AND " + TextOf(Until(until)) + ")"
  {
  }

  /** And the text of two filters: one for a kind up to a time, one without any condition. */
  lemma TextOfTwoFilters(kind: uint16, until: Timestamp)
    ensures var f := Filter([], [], [kind], None, Some(until), None, map[]);
      var g := Filter([], [], [], None, None, None, map[]);
      var both := TextOf(KindIn([kind])) + " AND " + TextOf(Until(until));
      FilterText(f) == "(" + both + ")" && FilterText(g) == "(" + "created_at > 0" + ")"
      && WhereText([f, g]) == FilterText(f) + " OR " + FilterText(g)
  {
    var f, g := Filter([], [], [kind], None, Some(until), None, map[]), Filter([], [], [], None, None, None, map[]);
    TwoConjuncts(f, KindIn([kind]), Until(until));
    assert Map(TextOf, [After(0)]) == [TextOf(After(0))];
    assert Decimal.Print(0) == "0";
    TwoTexts(f, g);
  }

  // ---------------------------------------------------------------- the text, token by token

  const IN: seq<Token> := [Blank, Word("in"), Blank, Symbol('[')]
  const AND: seq<Token> := [Blank, Word("AND"), Blank]
  const OR: seq<Token> := [Blank, Word("OR"), Blank]
  const META_ID: seq<Token> := [Word("meta::id"), Symbol('('), Word("id"), Symbol(')')]
  const SENDER: seq<Token> := [Word("sender")]
  const KIND: seq<Token> := [Word("kind")]
  const ABOVE: seq<Token> := [Word("created_at"), Blank, Symbol('>'), Blank]
  const BELOW: seq<Token> := [Word("created_at"), Blank, Symbol('<'), Blank]

  function Listing(field: seq<Token>, items: seq<Token>): seq<Token> {
    field + IN + Listed(items) + [Symbol(']')]
  }

  function TokensOf(c: Conjunct): seq<Token> {
    match c
    case IdIn(ids) => Listing(META_ID, Map(IdToken, ids))
    case SenderIn(senders) => Listing(SENDER, Map(SenderToken, senders))
    case KindIn(kinds) => Listing(KIND, Map(KindToken, kinds))
    case After(t) => AfterTokens(t)
    case Until(t) => UntilTokens(t)
    case Within(t, t') => Bracketed(AfterTokens(t) + AND + UntilTokens(t'))
  }

  function AfterTokens(t: Timestamp): seq<Token> { ABOVE + [Number(t)] }
  function UntilTokens(t: Timestamp): seq<Token> { BELOW + [Number(t)] }
  function Bracketed(ts: seq<Token>): seq<Token> { [Symbol('(')] + ts + [Symbol(')')] }

  function AllTokens(cs: seq<Conjunct>): seq<Token> {
    if cs == [] then []
    else if |cs| == 1 then TokensOf(cs[0])
    else TokensOf(cs[0]) + AND + AllTokens(cs[1..])
  }

  function FilterTokens(f: Filter): seq<Token> {
    Bracketed(AllTokens(Conjuncts(f)))
  }

  function WhereTokens(fs: seq<Filter>): seq<Token> {
    if fs == [] then []
    else if |fs| == 1 then FilterTokens(fs[0])
    else FilterTokens(fs[0]) + OR + WhereTokens(fs[1..])
  }

  lemma SpellOne(t: Token)
    ensures SpellAll([t]) == Spell(t)
  {
  }

  lemma SpellConstants()
    ensures SpellAll(IN) == " in [" && SpellAll(AND) == " AND " && SpellAll(OR) == " OR "
    ensures SpellAll(META_ID) == "meta::id(id)" && SpellAll(SENDER) == "sender" && SpellAll(KIND) == "kind"
    ensures SpellAll(ABOVE) == "created_at > " && SpellAll(BELOW) == "created_at < "
  {
  }

  lemma SpellBracketed(ts: seq<Token>)
    ensures SpellAll(Bracketed(ts)) == "(" + SpellAll(ts) + ")"
  {
    SpellOne(Symbol('('));
    SpellOne(Symbol(')'));
    SpellConcat([Symbol('(')] + ts, [Symbol(')')]);
    SpellConcat([Symbol('(')], ts);
  }

  lemma SpellListing(field: seq<Token>, items: seq<Token>)
    ensures SpellAll(Listing(field, items)) == SpellAll(field) + " in [" + ItemsText(items) + "]"
  {
    SpellConstants();
    SpellOne(Symbol(']'));
    SpellConcat(field + IN + Listed(items), [Symbol(']')]);
    SpellConcat(field + IN, Listed(items));
    SpellConcat(field, IN);
  }

  lemma SpellTimes(t: Timestamp)
    ensures SpellAll(AfterTokens(t)) == AfterText(t) && SpellAll(UntilTokens(t)) == UntilText(t)
  {
    SpellConstants();
    SpellOne(Number(t));
    SpellConcat(ABOVE, [Number(t)]);
    SpellConcat(BELOW, [Number(t)]);
  }

  lemma SpellWithin(t: Timestamp, t': Timestamp)
    ensures SpellAll(Bracketed(AfterTokens(t) + AND + UntilTokens(t')))
         == "(" + AfterText(t) + " AND " + UntilText(t') + ")"
  {
    SpellConstants();
    SpellTimes(t);
    SpellTimes(t');
    SpellBracketed(AfterTokens(t) + AND + UntilTokens(t'));
    SpellConcat(AfterTokens(t) + AND, UntilTokens(t'));
    SpellConcat(AfterTokens(t), AND);
  }

  lemma Headings()
    ensures "meta::id(id)" + " in [" == "meta::id(id) in ["
    ensures "sender" + " in [" == "sender in [" && "kind" + " in [" == "kind in ["
  {
  }

  lemma SpellConjunct(c: Conjunct)
    ensures SpellAll(TokensOf(c)) == TextOf(c)
  {
    SpellConstants();
    Headings();
    match c
    case IdIn(ids) => SpellListing(META_ID, Map(IdToken, ids));
    case SenderIn(senders) => SpellListing(SENDER, Map(SenderToken, senders));
    case KindIn(kinds) => SpellListing(KIND, Map(KindToken, kinds));
    case After(t) => SpellTimes(t);
    case Until(t) => SpellTimes(t);
    case Within(t, t') => SpellWithin(t, t');
  }

  lemma {:induction false} SpellConjuncts(cs: seq<Conjunct>)
    ensures SpellAll(AllTokens(cs)) == Join(Map(TextOf, cs), " AND ")
  {
    if cs != [] {
      var texts := Map(TextOf, cs);
      SpellConjunct(cs[0]);
      assert texts[0] == TextOf(cs[0]);
      if |cs| > 1 {
        SpellConjuncts(cs[1..]);
        assert texts[1..] == Map(TextOf, cs[1..]);
        SpellConstants();
        SpellConcat(TokensOf(cs[0]) + AND, AllTokens(cs[1..]));
        SpellConcat(TokensOf(cs[0]), AND);
      }
    }
  }

  lemma SpellFilter(f: Filter)
    ensures SpellAll(FilterTokens(f)) == FilterText(f)
  {
    SpellBracketed(AllTokens(Conjuncts(f)));
    SpellConjuncts(Conjuncts(f));
  }

  lemma {:induction false} SpellWhere(fs: seq<Filter>)
    ensures SpellAll(WhereTokens(fs)) == WhereText(fs)
  {
    if fs != [] {
      var texts := Map(FilterText, fs);
      SpellFilter(fs[0]);
      assert texts[0] == FilterText(fs[0]);
      if |fs| > 1 {
        SpellWhere(fs[1..]);
        assert texts[1..] == Map(FilterText, fs[1..]);
        SpellConstants();
        SpellConcat(FilterTokens(fs[0]) + OR, WhereTokens(fs[1..]));
        SpellConcat(FilterTokens(fs[0]), OR);
      }
    }
  }

  // ---------------------------------------------------------------- the text reads back

  lemma SpacedJoins()
    ensures Spaced(IN) && Spaced(AND) && Spaced(OR)
  {
  }

  lemma {:induction false} HexHasNoQuotes(bytes: seq<byte>)
    ensures Spellable(Text(HexEncode(bytes)))
  {
    if bytes != [] { HexHasNoQuotes(bytes[1..]); }
  }

  ghost predicate Items(items: seq<Token>) {
    forall i :: 0 <= i < |items| ==> (items[i].Text? || items[i].Number?) && Spellable(items[i])
  }

  lemma {:induction false} SpacedListed(items: seq<Token>)
    requires Items(items)
    ensures Spaced(Listed(items)) && Closes(Listed(items))
  {
    if items != [] {
      SpacedListed(items[1..]);
      SpacedConcat([items[0], Symbol(',')], Listed(items[1..]));
    }
  }

  lemma SpacedListing(field: seq<Token>, items: seq<Token>)
    requires Spaced(field) && Items(items)
    ensures Spaced(Listing(field, items))
  {
    SpacedJoins();
    SpacedListed(items);
    SpacedConcat(field, IN);
    SpacedConcat(field + IN, Listed(items));
    SpacedConcat(field + IN + Listed(items), [Symbol(']')]);
  }

  lemma SpacedBracketed(ts: seq<Token>)
    requires Spaced(ts)
    ensures Spaced(Bracketed(ts))
  {
    SpacedConcat([Symbol('(')], ts);
    SpacedConcat([Symbol('(')] + ts, [Symbol(')')]);
  }

  lemma SpacedTimes(t: Timestamp)
    ensures Spaced(AfterTokens(t)) && Spaced(UntilTokens(t))
  {
    assert [Number(t)][1..] == [];
    SpacedConcat(ABOVE, [Number(t)]);
    SpacedConcat(BELOW, [Number(t)]);
  }

  lemma ItemsOfIds(ids: seq<Bytes32>)
    ensures Items(Map(IdToken, ids))
  {
    forall i | 0 <= i < |ids| ensures Spellable(IdToken(ids[i])) { HexHasNoQuotes(ids[i]); }
  }

  lemma ItemsOfSenders(senders: seq<Senders.Sender>)
    ensures Items(Map(SenderToken, senders))
  {
    forall i | 0 <= i < |senders| ensures Spellable(SenderToken(senders[i])) { HexHasNoQuotes(senders[i].ToBytes()); }
  }

  lemma ItemsOfKinds(kinds: seq<uint16>)
    ensures Items(Map(KindToken, kinds))
  {
    forall i | 0 <= i < |kinds| ensures KindToken(kinds[i]).Number? {}
  }

  lemma SpacedConjunct(c: Conjunct)
    ensures Spaced(TokensOf(c))
  {
    match c
    case IdIn(ids) =>
      ItemsOfIds(ids);
      SpacedListing(META_ID, Map(IdToken, ids));
    case SenderIn(senders) =>
      ItemsOfSenders(senders);
      SpacedListing(SENDER, Map(SenderToken, senders));
    case KindIn(kinds) =>
      ItemsOfKinds(kinds);
      SpacedListing(KIND, Map(KindToken, kinds));
    case After(t) => SpacedTimes(t);
    case Until(t) => SpacedTimes(t);
    case Within(t, t') => SpacedWithin(t, t');
  }

  lemma SpacedWithin(t: Timestamp, t': Timestamp)
    ensures Spaced(Bracketed(AfterTokens(t) + AND + UntilTokens(t')))
  {
    SpacedTimes(t);
    SpacedTimes(t');
    SpacedJoins();
    SpacedConcat(AfterTokens(t), AND);
    SpacedConcat(AfterTokens(t) + AND, UntilTokens(t'));
    SpacedBracketed(AfterTokens(t) + AND + UntilTokens(t'));
  }

  lemma {:induction false} SpacedConjuncts(cs: seq<Conjunct>)
    ensures Spaced(AllTokens(cs))
  {
    if cs != [] {
      SpacedConjunct(cs[0]);
      if |cs| > 1 {
        SpacedConjuncts(cs[1..]);
        SpacedJoins();
        SpacedConcat(TokensOf(cs[0]), AND);
        SpacedConcat(TokensOf(cs[0]) + AND, AllTokens(cs[1..]));
      }
    }
  }

  lemma {:induction false} SpacedWhere(fs: seq<Filter>)
    ensures Spaced(WhereTokens(fs))
  {
    if fs != [] {
      SpacedConjuncts(Conjuncts(fs[0]));
      SpacedBracketed(AllTokens(Conjuncts(fs[0])));
      if |fs| > 1 {
        SpacedWhere(fs[1..]);
        SpacedJoins();
        SpacedConcat(FilterTokens(fs[0]), OR);
        SpacedConcat(FilterTokens(fs[0]) + OR, WhereTokens(fs[1..]));
      }
    }
  }

  /** The text of a query reads back as the tokens it was made of. */
  lemma WhereReadsBack(fs: seq<Filter>)
    ensures Lex(WhereText(fs)) == Visible(WhereTokens(fs))
  {
    SpacedWhere(fs);
    SpellWhere(fs);
    LexSpelled(WhereTokens(fs));
  }
}
