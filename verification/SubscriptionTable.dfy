/** Subscription tables and what a stream of subscribe and close commands makes of them. */
module SubscriptionTable {
  import Wire

  type Id = string
  /** A subscription: the client calls it a request, the relay a subscription. */
  datatype Request = Request(id: Id, filters: seq<Wire.FilterOnWire>)
  type Table = map<Id, Request>

  /** The effect of a command on a table. */
  datatype Op = Put(id: Id, request: Request) | Delete(id: Id) | Skip

  predicate Touches(op: Op, id: Id) {
    !op.Skip? && op.id == id
  }

  function Apply(t: Table, op: Op): Table {
    match op
    case Put(id, request) => t[id := request]
    case Delete(id) => t - {id}
    case Skip => t
  }

  /** All of `ops`, in order. */
  function Fold(ops: seq<Op>, t: Table): Table {
    if ops == [] then t else Fold(ops[1..], Apply(t, ops[0]))
  }

  /** The last word on `id`, or `Skip`. */
  function LastOn(ops: seq<Op>, id: Id): Op {
    if ops == [] then Skip
    else
      var later := LastOn(ops[1..], id);
      if later != Skip then later else if Touches(ops[0], id) then ops[0] else Skip
  }

  ghost predicate SameAt(t: Table, t': Table, id: Id) {
    if id in t then id in t' && t[id] == t'[id] else id !in t'
  }

  lemma {:induction false} FoldConcat(a: seq<Op>, b: seq<Op>, t: Table)
    ensures Fold(a + b, t) == Fold(b, Fold(a, t))
  {
    if a == [] {
      assert a + b == b;
    } else {
      FoldConcat(a[1..], b, Apply(t, a[0]));
      assert (a + b)[1..] == a[1..] + b;
    }
  }

  lemma FoldOne(op: Op, t: Table)
    ensures Fold([op], t) == Apply(t, op)
  {
    assert [op][1..] == [];
  }

  /** Only the last command on an id matters for it. */
  lemma {:induction false} FoldAt(ops: seq<Op>, t: Table, id: Id)
    ensures LastOn(ops, id).Skip? ==> SameAt(Fold(ops, t), t, id)
    ensures LastOn(ops, id).Put? ==> id in Fold(ops, t) && Fold(ops, t)[id] == LastOn(ops, id).request
    ensures LastOn(ops, id).Delete? ==> id !in Fold(ops, t)
  {
    if ops != [] {
      FoldAt(ops[1..], Apply(t, ops[0]), id);
    }
  }

  /** Two tables become equal exactly when they agree on every id that no command touches. */
  lemma FoldsAgree(ops: seq<Op>, t: Table, t': Table)
    ensures Fold(ops, t) == Fold(ops, t') <==> forall id :: LastOn(ops, id) == Skip ==> SameAt(t, t', id)
  {
    var f, f' := Fold(ops, t), Fold(ops, t');
    if f == f' {
      forall id | LastOn(ops, id) == Skip ensures SameAt(t, t', id) {
        FoldAt(ops, t, id);
        FoldAt(ops, t', id);
      }
    }
    if forall id :: LastOn(ops, id) == Skip ==> SameAt(t, t', id) {
      forall id ensures SameAt(f, f', id) {
        FoldAt(ops, t, id);
        FoldAt(ops, t', id);
        assert LastOn(ops, id) == Skip ==> SameAt(t, t', id);
      }
      SameEverywhere(f, f');
    }
  }

  lemma SameEverywhere(t: Table, t': Table)
    requires forall id :: SameAt(t, t', id)
    ensures t == t'
  {
    forall id ensures id in t <==> id in t' { assert SameAt(t, t', id); }
    forall id | id in t ensures t[id] == t'[id] { assert SameAt(t, t', id); }
  }

  lemma {:induction false} LastOnConcat(a: seq<Op>, b: seq<Op>, id: Id)
    ensures LastOn(a + b, id) == if LastOn(b, id) != Skip then LastOn(b, id) else LastOn(a, id)
  {
    if a == [] {
      assert a + b == b;
    } else {
      LastOnConcat(a[1..], b, id);
      assert (a + b)[1..] == a[1..] + b;
    }
  }
}
