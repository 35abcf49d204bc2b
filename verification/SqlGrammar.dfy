/** The fragment of SurrealQL conditions the relay's queries use: its lexis, its grammar with AND binding
    tighter than OR, and what a condition says of a stored event. */
module SqlGrammar {
  import opened Common
  import Filters
  import Decimal

  /** `Blank` is a space; reading a text yields none. */
  datatype Token = Word(text: string) | Text(text: string) | Number(value: nat) | Symbol(c: char) | Blank

  predicate IsWordChar(c: char) {
    'a' <= c <= 'z' || 'A' <= c <= 'Z' || c == '_' || c == ':'
  }

  /** How many characters from the start satisfy `p`. */
  function Span(p: char -> bool, s: string): (n: nat)
    ensures n <= |s|
    ensures forall i :: 0 <= i < n ==> p(s[i])
    ensures n < |s| ==> !p(s[n])
  {
    if s == "" || !p(s[0]) then 0 else 1 + Span(p, s[1..])
  }

  function Lex(s: string): seq<Token>
    decreases |s|
  {
    if s == "" then []
    else if s[0] == ' ' then Lex(s[1..])
    else if Decimal.IsDigit(s[0]) then
      var n := Span(Decimal.IsDigit, s);
      [Number(Decimal.Value(s[..n]))] + Lex(s[n..])
    else if IsWordChar(s[0]) then
      var n := Span(IsWordChar, s);
      [Word(s[..n])] + Lex(s[n..])
    else if s[0] == '\'' then
      var n := Span(c => c != '\'', s[1..]);
      if n + 1 < |s| then [Text(s[1..n + 1])] + Lex(s[n + 2..]) else [Symbol('\'')]
    else [Symbol(s[0])] + Lex(s[1..])
  }

  // ---------------------------------------------------------------- conditions

  datatype Field = IdField | SenderField | KindField | TimeField

  datatype Condition =
    | Or(left: Condition, right: Condition)
    | And(left: Condition, right: Condition)
    | In(field: Field, items: seq<Token>)
    | Above(field: Field, bound: nat)
    | Below(field: Field, bound: nat)

  datatype Parsed<T> = NoParse | Parse(result: T, rest: seq<Token>)

  function ParseField(toks: seq<Token>): (p: Parsed<Field>)
    ensures p.Parse? ==> |p.rest| < |toks|
  {
    if toks == [] then NoParse
    else if toks[0] == Word("meta::id") then
      if |toks| >= 4 && toks[1] == Symbol('(') && toks[2] == Word("id") && toks[3] == Symbol(')')
      then Parse(IdField, toks[4..]) else NoParse
    else if toks[0] == Word("sender") then Parse(SenderField, toks[1..])
    else if toks[0] == Word("kind") then Parse(KindField, toks[1..])
    else if toks[0] == Word("created_at") then Parse(TimeField, toks[1..])
    else NoParse
  }

  /** Literals up to the closing bracket, separated by commas; one more comma may follow the last. */
  function ParseItems(toks: seq<Token>): (p: Parsed<seq<Token>>)
    ensures p.Parse? ==> |p.rest| < |toks|
    decreases |toks|
  {
    if toks == [] then NoParse
    else if toks[0] == Symbol(']') then Parse([], toks[1..])
    else if |toks| >= 2 && (toks[0].Text? || toks[0].Number?) then
      if toks[1] == Symbol(']') then Parse([toks[0]], toks[2..])
      else if toks[1] == Symbol(',') then
        (match ParseItems(toks[2..])
         case NoParse => NoParse
         case Parse(items, rest) => Parse([toks[0]] + items, rest))
      else NoParse
    else NoParse
  }

  function ParseTest(toks: seq<Token>): (p: Parsed<Condition>)
    ensures p.Parse? ==> |p.rest| < |toks|
  {
    match ParseField(toks)
    case NoParse => NoParse
    case Parse(field, rest) =>
      if |rest| >= 2 && rest[0] == Word("in") && rest[1] == Symbol('[') then
        (match ParseItems(rest[2..])
         case NoParse => NoParse
         case Parse(items, rest) => Parse(In(field, items), rest))
      else if |rest| >= 2 && rest[0] == Symbol('>') && rest[1].Number? then
        Parse(Above(field, rest[1].value), rest[2..])
      else if |rest| >= 2 && rest[0] == Symbol('<') && rest[1].Number? then
        Parse(Below(field, rest[1].value), rest[2..])
      else NoParse
  }

  function ParsePrimary(toks: seq<Token>): (p: Parsed<Condition>)
    ensures p.Parse? ==> |p.rest| < |toks|
    decreases |toks|, 0
  {
    if toks != [] && toks[0] == Symbol('(') then
      match ParseOr(toks[1..])
      case NoParse => NoParse
      case Parse(c, rest) => if rest != [] && rest[0] == Symbol(')') then Parse(c, rest[1..]) else NoParse
    else ParseTest(toks)
  }

  function ParseAnd(toks: seq<Token>): (p: Parsed<Condition>)
    ensures p.Parse? ==> |p.rest| < |toks|
    decreases |toks|, 1
  {
    match ParsePrimary(toks)
    case NoParse => NoParse
    case Parse(left, rest) =>
      if rest != [] && rest[0] == Word("AND") then
        (match ParseAnd(rest[1..])
         case NoParse => NoParse
         case Parse(right, rest) => Parse(And(left, right), rest))
      else Parse(left, rest)
  }

  function ParseOr(toks: seq<Token>): (p: Parsed<Condition>)
    ensures p.Parse? ==> |p.rest| < |toks|
    decreases |toks|, 2
  {
    match ParseAnd(toks)
    case NoParse => NoParse
    case Parse(left, rest) =>
      if rest != [] && rest[0] == Word("OR") then
        (match ParseOr(rest[1..])
         case NoParse => NoParse
         case Parse(right, rest) => Parse(Or(left, right), rest))
      else Parse(left, rest)
  }

  /** The condition a text is, if all of it parses. */
  function ParseCondition(text: string): Option<Condition> {
    match ParseOr(Lex(text))
    case Parse(c, rest) => if rest == [] then Some(c) else None
    case NoParse => None
  }

  /** Ids and senders are stored as lower-case hexadecimal text. */
  function FieldOf(e: Filters.Event, field: Field): Token {
    match field
    case IdField => Text(HexEncode(e.id))
    case SenderField => Text(HexEncode(e.sender.ToBytes()))
    case KindField => Number(e.kind)
    case TimeField => Number(e.createdAt)
  }

  predicate Holds(c: Condition, e: Filters.Event) {
    match c
    case Or(left, right) => Holds(left, e) || Holds(right, e)
    case And(left, right) => Holds(left, e) && Holds(right, e)
    case In(field, items) => FieldOf(e, field) in items
    case Above(field, bound) => FieldOf(e, field).Number? && FieldOf(e, field).value > bound
    case Below(field, bound) => FieldOf(e, field).Number? && FieldOf(e, field).value < bound
  }

  // ---------------------------------------------------------------- spelling and reading

  function Spell(t: Token): string {
    match t
    case Word(w) => w
    case Text(text) => ['\''] + text + ['\'']
    case Number(n) => Decimal.Print(n)
    case Symbol(c) => [c]
    case Blank => " "
  }

  function SpellAll(ts: seq<Token>): string {
    if ts == [] then "" else Spell(ts[0]) + SpellAll(ts[1..])
  }

  function Visible(ts: seq<Token>): seq<Token> {
    if ts == [] then []
    else if ts[0].Blank? then Visible(ts[1..])
    else [ts[0]] + Visible(ts[1..])
  }

  predicate IsPunctuation(c: char) {
    c != ' ' && c != '\'' && !IsWordChar(c) && !Decimal.IsDigit(c)
  }

  predicate Spellable(t: Token) {
    match t
    case Word(w) => w != "" && forall i :: 0 <= i < |w| ==> IsWordChar(w[i])
    case Text(text) => forall i :: 0 <= i < |text| ==> text[i] != '\''
    case Symbol(c) => IsPunctuation(c)
    case _ => true
  }

  /** Nothing that could be read as part of a word or number follows one. */
  predicate Opens(ts: seq<Token>) {
    ts == [] || ts[0].Blank? || (ts[0].Symbol? && IsPunctuation(ts[0].c))
  }

  predicate Spaced(ts: seq<Token>) {
    ts == [] || (
      && Spellable(ts[0])
      && (ts[0].Word? || ts[0].Number? ==> Opens(ts[1..]))
      && Spaced(ts[1..]))
  }

  lemma SpellFirst(ts: seq<Token>)
    requires ts != []
    ensures SpellAll(ts) == Spell(ts[0]) + SpellAll(ts[1..])
  {
  }

  lemma {:induction false} SpellConcat(a: seq<Token>, b: seq<Token>)
    ensures SpellAll(a + b) == SpellAll(a) + SpellAll(b)
  {
    if a == [] {
      assert a + b == b;
    } else {
      var rest := a[1..] + b;
      assert (a + b)[1..] == rest && (a + b)[0] == a[0];
      calc {
        SpellAll(a + b);
        { SpellFirst(a + b); }
        Spell(a[0]) + SpellAll(rest);
        { SpellConcat(a[1..], b); }
        Spell(a[0]) + (SpellAll(a[1..]) + SpellAll(b));
        { Associate(Spell(a[0]), SpellAll(a[1..]), SpellAll(b)); }
        (Spell(a[0]) + SpellAll(a[1..])) + SpellAll(b);
        { SpellFirst(a); }
        SpellAll(a) + SpellAll(b);
      }
    }
  }

  lemma {:induction false} VisibleConcat(a: seq<Token>, b: seq<Token>)
    ensures Visible(a + b) == Visible(a) + Visible(b)
  {
    if a == [] {
      assert a + b == b;
    } else {
      VisibleConcat(a[1..], b);
      assert (a + b)[1..] == a[1..] + b && (a + b)[0] == a[0];
      Associate([a[0]], Visible(a[1..]), Visible(b));
    }
  }

  /** Anything may follow a token that ends by itself. */
  predicate Closes(ts: seq<Token>) {
    ts == [] || !(ts[|ts| - 1].Word? || ts[|ts| - 1].Number?)
  }

  lemma {:induction false} SpacedConcat(a: seq<Token>, b: seq<Token>)
    requires Spaced(a) && Spaced(b) && (Closes(a) || Opens(b))
    ensures Spaced(a + b)
  {
    if a == [] {
      assert a + b == b;
    } else {
      SpacedConcat(a[1..], b);
      assert (a + b)[1..] == a[1..] + b;
    }
  }

  lemma {:induction false} SpanOf(p: char -> bool, a: string, rest: string)
    requires forall i :: 0 <= i < |a| ==> p(a[i])
    requires rest != "" ==> !p(rest[0])
    ensures Span(p, a + rest) == |a|
  {
    if a == "" {
      assert a + rest == rest;
    } else {
      SpanOf(p, a[1..], rest);
      assert (a + rest)[1..] == a[1..] + rest;
    }
  }

  lemma LexWord(w: string, rest: string)
    requires Spellable(Word(w))
    requires rest != "" ==> !IsWordChar(rest[0])
    ensures Lex(w + rest) == [Word(w)] + Lex(rest)
  {
    SpanOf(IsWordChar, w, rest);
    assert (w + rest)[0] == w[0] && (w + rest)[..|w|] == w && (w + rest)[|w|..] == rest;
  }

  lemma LexNumber(n: nat, rest: string)
    requires rest != "" ==> !Decimal.IsDigit(rest[0])
    ensures Lex(Decimal.Print(n) + rest) == [Number(n)] + Lex(rest)
  {
    var digits := Decimal.Print(n);
    SpanOf(Decimal.IsDigit, digits, rest);
    Decimal.ValueOfPrint(n);
    var text := digits + rest;
    assert text[0] == digits[0] && text[..|digits|] == digits && text[|digits|..] == rest;
  }

  lemma LexText(t: string, rest: string)
    requires Spellable(Text(t))
    ensures Lex(['\''] + t + ['\''] + rest) == [Text(t)] + Lex(rest)
  {
    var s := ['\''] + t + ['\''] + rest;
    SpanOf(c => c != '\'', t, ['\''] + rest);
    assert s[1..] == t + (['\''] + rest);
    assert s[1..|t| + 1] == t && s[|t| + 2..] == rest;
  }

  lemma OpensApart(ts: seq<Token>)
    requires Opens(ts) && ts != []
    ensures SpellAll(ts) != "" && !IsWordChar(SpellAll(ts)[0]) && !Decimal.IsDigit(SpellAll(ts)[0])
  {
  }

  lemma LexFirst(t: Token, rest: string)
    requires Spellable(t)
    requires t.Word? || t.Number? ==> rest == "" || (!IsWordChar(rest[0]) && !Decimal.IsDigit(rest[0]))
    ensures Lex(Spell(t) + rest) == (if t.Blank? then [] else [t]) + Lex(rest)
  {
    match t
    case Word(w) => LexWord(w, rest);
    case Text(text) => LexText(text, rest);
    case Number(n) => LexNumber(n, rest);
    case Symbol(c) => assert ([c] + rest)[1..] == rest;
    case Blank => assert (" " + rest)[1..] == rest;
  }

  /** Reading a well-spaced text gives back its tokens. */
  lemma {:induction false} LexSpelled(ts: seq<Token>)
    requires Spaced(ts)
    ensures Lex(SpellAll(ts)) == Visible(ts)
  {
    if ts != [] {
      LexSpelled(ts[1..]);
      if ts[1..] != [] && Opens(ts[1..]) { OpensApart(ts[1..]); }
      LexFirst(ts[0], SpellAll(ts[1..]));
    }
  }
}
