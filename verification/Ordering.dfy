/** Sorting a list and dropping its repetitions, for any type whose order is the lexicographic order of
    some key (Rust's `sort` and `dedup`). */
module Ordering {

  type Key = seq<int>

  predicate Less(a: Key, b: Key) {
    if b == [] then false
    else if a == [] then true
    else a[0] < b[0] || (a[0] == b[0] && Less(a[1..], b[1..]))
  }

  /** The first difference decides; a proper prefix comes first. */
  lemma {:induction false} LessIsLexicographic(a: Key, b: Key)
    ensures Less(a, b) <==>
      exists k :: 0 <= k <= |a| && k < |b| && a[..k] == b[..k] && (k == |a| || a[k] < b[k])
  {
    if a == [] || b == [] {
      assert b != [] ==> a[..0] == b[..0];
    } else {
      LessIsLexicographic(a[1..], b[1..]);
      if a[0] == b[0] && Less(a[1..], b[1..]) {
        var k :| 0 <= k <= |a[1..]| && k < |b[1..]| && a[1..][..k] == b[1..][..k]
                 && (k == |a[1..]| || a[1..][k] < b[1..][k]);
        assert a[..k + 1] == [a[0]] + a[1..][..k] && b[..k + 1] == [b[0]] + b[1..][..k];
      }
      if a[0] < b[0] { assert a[..0] == b[..0]; }
      if exists k :: 0 <= k <= |a| && k < |b| && a[..k] == b[..k] && (k == |a| || a[k] < b[k]) {
        var k :| 0 <= k <= |a| && k < |b| && a[..k] == b[..k] && (k == |a| || a[k] < b[k]);
        if k > 0 {
          assert a[0] == a[..k][0] == b[..k][0] == b[0];
          assert a[1..][..k - 1] == a[..k][1..] && b[1..][..k - 1] == b[..k][1..];
        }
      }
    }
  }

  lemma {:induction false} LessTotal(a: Key, b: Key)
    ensures Less(a, b) || a == b || Less(b, a)
    ensures !(Less(a, b) && Less(b, a)) && !Less(a, a)
  {
    if a != [] && b != [] {
      LessTotal(a[1..], b[1..]);
      if a[0] == b[0] && a[1..] == b[1..] { assert a == [a[0]] + a[1..] == b; }
    }
    if a != [] { LessTotal(a[1..], a[1..]); }
  }

  lemma {:induction false} LessTransitive(a: Key, b: Key, c: Key)
    requires Less(a, b) && Less(b, c)
    ensures Less(a, c)
  {
    if a != [] && a[0] == b[0] == c[0] {
      LessTransitive(a[1..], b[1..], c[1..]);
    }
  }

  function Insert<T>(key: T -> Key, x: T, items: seq<T>): seq<T> {
    if items == [] || !Less(key(items[0]), key(x)) then [x] + items
    else [items[0]] + Insert(key, x, items[1..])
  }

  function Sort<T>(key: T -> Key, items: seq<T>): seq<T> {
    if items == [] then [] else Insert(key, items[0], Sort(key, items[1..]))
  }

  /** Drops each element that equals the one before it. */
  function Dedup<T(==)>(items: seq<T>): seq<T> {
    if |items| <= 1 then items
    else if items[0] == items[1] then Dedup(items[1..])
    else [items[0]] + Dedup(items[1..])
  }

  function Normal<T(==)>(key: T -> Key, items: seq<T>): seq<T> {
    Dedup(Sort(key, items))
  }

  ghost predicate Injective<T(!new)>(key: T -> Key) {
    forall x, y :: key(x) == key(y) ==> x == y
  }

  ghost predicate SameElements<T(!new)>(a: seq<T>, b: seq<T>) {
    forall x :: x in a <==> x in b
  }

  /** In order; repetitions only where `strict` does not forbid them. */
  ghost predicate Ascending<T>(key: T -> Key, items: seq<T>, strict: bool) {
    |items| <= 1 || (
      && (Less(key(items[0]), key(items[1])) || (!strict && key(items[0]) == key(items[1])))
      && Ascending(key, items[1..], strict))
  }

  // ---------------------------------------------------------------- normal forms

  lemma {:induction false} InsertElements<T(!new)>(key: T -> Key, x: T, items: seq<T>)
    ensures SameElements(Insert(key, x, items), [x] + items)
  {
    if items != [] && Less(key(items[0]), key(x)) {
      InsertElements(key, x, items[1..]);
      assert items == [items[0]] + items[1..];
      forall y ensures y in Insert(key, x, items) <==> y in [x] + items {
        assert y in Insert(key, x, items[1..]) <==> y in [x] + items[1..];
      }
    }
  }

  lemma {:induction false} SortElements<T(!new)>(key: T -> Key, items: seq<T>)
    ensures SameElements(Sort(key, items), items)
  {
    if items != [] {
      SortElements(key, items[1..]);
      InsertElements(key, items[0], Sort(key, items[1..]));
      assert items == [items[0]] + items[1..];
      forall y ensures y in Sort(key, items) <==> y in items {
        assert y in Insert(key, items[0], Sort(key, items[1..])) <==> y in [items[0]] + Sort(key, items[1..]);
        assert y in Sort(key, items[1..]) <==> y in items[1..];
      }
    }
  }

  lemma {:induction false} DedupElements<T(!new)>(items: seq<T>)
    ensures SameElements(Dedup(items), items)
    ensures items != [] ==> Dedup(items) != [] && Dedup(items)[0] == items[0]
  {
    if |items| > 1 {
      DedupElements(items[1..]);
      assert items == [items[0]] + items[1..];
      forall y ensures y in Dedup(items) <==> y in items {
        assert y in Dedup(items[1..]) <==> y in items[1..];
      }
    }
  }

  /** Normalising keeps exactly the elements of the list. */
  lemma NormalElements<T(!new)>(key: T -> Key, items: seq<T>)
    ensures SameElements(Normal(key, items), items)
  {
    SortElements(key, items);
    DedupElements(Sort(key, items));
    forall y ensures y in Normal(key, items) <==> y in items {
      assert y in Sort(key, items) <==> y in items;
    }
  }

  lemma {:induction false} InsertAscending<T>(key: T -> Key, x: T, items: seq<T>)
    requires Ascending(key, items, false)
    ensures Ascending(key, Insert(key, x, items), false)
  {
    if items == [] {
    } else {
      LessTotal(key(items[0]), key(x));
      if Less(key(items[0]), key(x)) {
        InsertAscending(key, x, items[1..]);
        var rest := Insert(key, x, items[1..]);
        assert Insert(key, x, items)[1..] == rest;
        assert rest[0] == x || rest[0] == items[1];
      } else {
        assert ([x] + items)[1..] == items;
      }
    }
  }

  lemma {:induction false} SortAscending<T>(key: T -> Key, items: seq<T>)
    ensures Ascending(key, Sort(key, items), false)
  {
    if items != [] {
      SortAscending(key, items[1..]);
      InsertAscending(key, items[0], Sort(key, items[1..]));
    }
  }

  lemma {:induction false} DedupAscending<T(!new)>(key: T -> Key, items: seq<T>)
    requires Injective(key) && Ascending(key, items, false)
    ensures Ascending(key, Dedup(items), true)
  {
    if |items| > 1 {
      DedupAscending(key, items[1..]);
      DedupElements(items[1..]);
      if items[0] != items[1] {
        assert Dedup(items)[1..] == Dedup(items[1..]);
      }
    }
  }

  lemma {:induction false} HeadIsLeast<T>(key: T -> Key, items: seq<T>, x: T)
    requires items != [] && Ascending(key, items, true) && x in items[1..]
    ensures Less(key(items[0]), key(x))
  {
    if x != items[1] {
      assert items[1..] == [items[1]] + items[1..][1..];
      HeadIsLeast(key, items[1..], x);
      LessTransitive(key(items[0]), key(items[1]), key(x));
    }
  }

  lemma HeadsEqual<T(!new)>(key: T -> Key, a: seq<T>, b: seq<T>)
    requires Injective(key) && a != [] && b != []
    requires Ascending(key, a, true) && Ascending(key, b, true) && SameElements(a, b)
    ensures a[0] == b[0]
  {
    if a[0] != b[0] {
      assert a[0] in a && b[0] in b;
      assert a == [a[0]] + a[1..] && b == [b[0]] + b[1..];
      HeadIsLeast(key, a, b[0]);
      HeadIsLeast(key, b, a[0]);
      LessTotal(key(a[0]), key(b[0]));
    }
  }

  lemma EmptyTogether<T(!new)>(a: seq<T>, b: seq<T>)
    requires SameElements(a, b)
    ensures a == [] <==> b == []
  {
    if a != [] { assert a[0] in a; }
    if b != [] { assert b[0] in b; }
  }

  lemma {:induction false} AscendingUnique<T(!new)>(key: T -> Key, a: seq<T>, b: seq<T>)
    requires Injective(key) && Ascending(key, a, true) && Ascending(key, b, true) && SameElements(a, b)
    ensures a == b
  {
    EmptyTogether(a, b);
    if a != [] {
      HeadsEqual(key, a, b);
      assert a == [a[0]] + a[1..] && b == [b[0]] + b[1..];
      forall x ensures x in a[1..] <==> x in b[1..] {
        if x in a[1..] { HeadIsLeast(key, a, x); LessTotal(key(x), key(x)); assert x in b; }
        if x in b[1..] { HeadIsLeast(key, b, x); LessTotal(key(x), key(x)); assert x in a; }
      }
      AscendingUnique(key, a[1..], b[1..]);
    }
  }

  /** The normal form depends on the set of elements alone: not on their order, nor on repetitions. In
      particular normalising twice is normalising once. */
  lemma NormalFormIsCanonical<T(!new)>(key: T -> Key, a: seq<T>, b: seq<T>)
    requires Injective(key)
    ensures Normal(key, a) == Normal(key, b) <==> SameElements(a, b)
    ensures Normal(key, Normal(key, a)) == Normal(key, a)
  {
    NormalElements(key, a);
    NormalElements(key, b);
    NormalElements(key, Normal(key, a));
    NormalAscending(key, a);
    NormalAscending(key, b);
    NormalAscending(key, Normal(key, a));
    AscendingUnique(key, Normal(key, Normal(key, a)), Normal(key, a));
    if SameElements(a, b) {
      AscendingUnique(key, Normal(key, a), Normal(key, b));
    }
    if Normal(key, a) == Normal(key, b) {
      forall x ensures x in a <==> x in b { assert x in Normal(key, a) <==> x in a; }
    }
  }

  lemma NormalAscending<T(!new)>(key: T -> Key, items: seq<T>)
    requires Injective(key)
    ensures Ascending(key, Normal(key, items), true)
  {
    SortAscending(key, items);
    DedupAscending(key, Sort(key, items));
  }
}
