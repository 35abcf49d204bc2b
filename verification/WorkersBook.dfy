/** The book of available workers: an insertion-ordered map from worker to the instant it was last
    seen, oldest entry first (the `LinkedHashMap` of nostr-client-plus/src/bin/assigner.rs), and what
    scanning it for workers means. */
module WorkersBook {
  import opened Common
  import opened Senders

  const MAX_WORKERS: nat := 10_000
  const COOL_DOWN_PERIOD: nat := 30 * SECOND
  const STALE_TIME: nat := 300 * SECOND

  datatype Entry = Entry(worker: Sender, seen: Instant)
  type Book = seq<Entry>

  ghost predicate Distinct(book: Book) {
    forall i, j :: 0 <= i < j < |book| ==> book[i].worker != book[j].worker
  }

  ghost predicate Sorted(book: Book) {
    forall i, j :: 0 <= i < j < |book| ==> book[i].seen <= book[j].seen
  }

  /** Where `w` is from `i` on, or the length of the book when it is not there. */
  function IndexFrom(book: Book, w: Sender, i: nat): (k: nat)
    requires i <= |book|
    ensures i <= k <= |book|
    ensures k < |book| ==> book[k].worker == w
    ensures forall j :: i <= j < k ==> book[j].worker != w
    decreases |book| - i
  {
    if i == |book| || book[i].worker == w then i else IndexFrom(book, w, i + 1)
  }

  function IndexOf(book: Book, w: Sender): (k: nat)
    ensures k <= |book|
    ensures k < |book| ==> book[k].worker == w
    ensures forall j :: 0 <= j < k ==> book[j].worker != w
  {
    IndexFrom(book, w, 0)
  }

  predicate Contains(book: Book, w: Sender) {
    IndexOf(book, w) < |book|
  }

  function Without(book: Book, w: Sender): Book {
    var i := IndexOf(book, w);
    if i < |book| then book[..i] + book[i + 1..] else book
  }

  /** `LinkedHashMap::insert`: a known key moves to the back. */
  function Insert(book: Book, w: Sender, t: Instant): Book {
    Without(book, w) + [Entry(w, t)]
  }

  predicate IsFresh(e: Entry, now: Instant) {
    now - e.seen < STALE_TIME
  }

  /** The entries younger than the stale time, in their order. */
  function Fresh(book: Book, now: Instant): (young: Book)
    ensures |young| <= |book|
  {
    if book == [] then []
    else
      var last := book[|book| - 1];
      var rest := Fresh(book[..|book| - 1], now);
      if IsFresh(last, now) then rest + [last] else rest
  }

  function WorkersOf(book: Book): (workers: seq<Sender>)
    ensures |workers| == |book|
  {
    seq(|book|, i requires 0 <= i < |book| => book[i].worker)
  }

  function NewestFirst(book: Book): (workers: seq<Sender>)
    ensures |workers| == |book|
  {
    seq(|book|, i requires 0 <= i < |book| => book[|book| - 1 - i].worker)
  }

  /** The same workers in the same order, all stamped with the oldest of their instants. */
  function Restamp(book: Book): (stamped: Book)
    ensures |stamped| == |book|
    ensures WorkersOf(stamped) == WorkersOf(book)
  {
    seq(|book|, i requires 0 <= i < |book| => Entry(book[i].worker, book[0].seen))
  }

  datatype Scan =
    | Picked(workers: seq<Sender>, rest: Book)  // the `n` newest workers leave the book
    | Swept(rest: Book)                         // too few fresh workers: only those stay
    | Exhausted                                 // the book held too few entries, all fresh

  /** Looking for `n` workers in a book sorted by time. */
  function ScanFor(book: Book, n: nat, now: Instant): Scan {
    var young := Fresh(book, now);
    if n <= |young| then Picked(NewestFirst(book[|book| - n..]), book[..|book| - n])
    else if |young| < |book| then Swept(Restamp(young))
    else Exhausted
  }

  // ---------------------------------------------------------------- facts about books

  /** In nanoseconds: an entry is fresh for 300 seconds, a worker rests for 30, and the book has room for ten
      thousand. */
  lemma BookBounds(e: Entry, now: Instant)
    ensures IsFresh(e, now) <==> now - e.seen < 300_000_000_000
    ensures COOL_DOWN_PERIOD == 30_000_000_000 && MAX_WORKERS == 10_000
  {
  }

  /** No entry is later than `t`. */
  ghost predicate UpTo(book: Book, t: Instant) {
    forall i :: 0 <= i < |book| ==> book[i].seen <= t
  }

  lemma WithoutAt(book: Book, w: Sender, i: nat)
    requires i < |Without(book, w)|
    ensures |Without(book, w)| <= |book|
    ensures Without(book, w)[i] == book[if i < IndexOf(book, w) then i else i + 1]
  {
  }

  lemma WithoutKeeps(book: Book, w: Sender)
    requires Distinct(book) && Sorted(book)
    ensures Distinct(Without(book, w)) && Sorted(Without(book, w))
    ensures |Without(book, w)| == if Contains(book, w) then |book| - 1 else |book|
    ensures forall i :: 0 <= i < |Without(book, w)| ==> Without(book, w)[i].worker != w
  {
    var k, rest := IndexOf(book, w), Without(book, w);
    forall i, j | 0 <= i < j < |rest|
      ensures rest[i].worker != rest[j].worker && rest[i].seen <= rest[j].seen
    {
      WithoutAt(book, w, i);
      WithoutAt(book, w, j);
    }
    forall i | 0 <= i < |rest| ensures rest[i].worker != w { WithoutAt(book, w, i); }
  }

  lemma InsertKeeps(book: Book, w: Sender, t: Instant)
    requires Distinct(book) && Sorted(book) && UpTo(book, t)
    ensures Distinct(Insert(book, w, t)) && Sorted(Insert(book, w, t)) && UpTo(Insert(book, w, t), t)
    ensures |Insert(book, w, t)| == if Contains(book, w) then |book| else |book| + 1
  {
    WithoutKeeps(book, w);
    var rest := Without(book, w);
    forall i | 0 <= i < |rest| ensures rest[i].seen <= t { WithoutAt(book, w, i); }
  }

  lemma {:induction false} FreshFrom(book: Book, now: Instant, k: nat)
    requires k <= |book|
    requires forall i :: 0 <= i < |book| ==> (IsFresh(book[i], now) <==> k <= i)
    ensures Fresh(book, now) == book[k..]
  {
    if book != [] {
      var init := book[..|book| - 1];
      FreshFrom(init, now, if k < |book| then k else k - 1);
      if k < |book| { assert book[k..] == init[k..] + [book[|book| - 1]]; }
    }
  }

  /** In a sorted book the fresh entries are exactly the newest ones. */
  lemma {:induction false} FreshIsSuffix(book: Book, now: Instant)
    requires Sorted(book)
    ensures Fresh(book, now) == book[|book| - |Fresh(book, now)|..]
    ensures forall i :: 0 <= i < |book| ==> (IsFresh(book[i], now) <==> |book| - |Fresh(book, now)| <= i)
  {
    var k := |book|;
    while k > 0 && IsFresh(book[k - 1], now)
      invariant 0 <= k <= |book|
      invariant forall i :: k <= i < |book| ==> IsFresh(book[i], now)
    {
      k := k - 1;
    }
    FreshFrom(book, now, k);
  }

  /** With at least `n` entries a scan succeeds exactly when the `n`-th newest of them, and with it every
      newer one, is fresh; it fails exactly when some entry among them is stale. */
  lemma ScanSucceedsIff(book: Book, n: nat, now: Instant)
    requires Sorted(book) && n <= |book|
    ensures ScanFor(book, n, now).Picked? <==> n == 0 || IsFresh(book[|book| - n], now)
    ensures ScanFor(book, n, now).Picked? <==> forall i :: |book| - n <= i < |book| ==> IsFresh(book[i], now)
    ensures ScanFor(book, n, now).Swept? <==> exists i :: |book| - n <= i < |book| && !IsFresh(book[i], now)
  {
    FreshIsSuffix(book, now);
    if n > |Fresh(book, now)| {
      assert !IsFresh(book[|book| - n], now);
    }
  }

  /** Success takes the `n` newest workers, newest first, all fresh, and leaves the others untouched. */
  lemma ScanPicks(book: Book, n: nat, now: Instant)
    requires Sorted(book) && n <= |Fresh(book, now)|
    ensures var scan := ScanFor(book, n, now);
      && scan.Picked? && |scan.workers| == n && scan.rest == book[..|book| - n]
      && (forall i :: 0 <= i < n ==>
           scan.workers[i] == book[|book| - 1 - i].worker && IsFresh(book[|book| - 1 - i], now))
  {
    FreshIsSuffix(book, now);
  }

  /** The picked workers are distinct, and none of them stays in the book. */
  lemma PickedAreDistinct(book: Book, n: nat, now: Instant)
    requires Distinct(book) && Sorted(book) && n <= |Fresh(book, now)|
    ensures var scan := ScanFor(book, n, now);
      && (forall i, j :: 0 <= i < j < n ==> scan.workers[i] != scan.workers[j])
      && (forall i, j :: 0 <= i < |scan.rest| && 0 <= j < n ==> scan.rest[i].worker != scan.workers[j])
    ensures Distinct(ScanFor(book, n, now).rest) && Sorted(ScanFor(book, n, now).rest)
  {
    ScanPicks(book, n, now);
  }

  /** Failure leaves exactly the workers that were fresh, in their order; their instants move
      backwards, never forwards. */
  lemma ScanSweeps(book: Book, n: nat, now: Instant)
    requires Sorted(book) && |Fresh(book, now)| < n <= |book|
    ensures var scan := ScanFor(book, n, now);
      && scan.Swept? && WorkersOf(scan.rest) == WorkersOf(Fresh(book, now))
      && |scan.rest| <= |book|
      && (forall i :: 0 <= i < |scan.rest| ==>
           var e := book[|book| - |scan.rest| + i];
           && IsFresh(e, now) && e.worker == scan.rest[i].worker
           && scan.rest[i].seen == book[|book| - |scan.rest|].seen <= e.seen)
  {
    FreshIsSuffix(book, now);
    var young := Fresh(book, now);
    var k := |book| - |young|;
    forall i | 0 <= i < |young|
      ensures IsFresh(book[k + i], now) && book[k + i] == young[i] && young[0].seen <= young[i].seen
    {
      assert young[0] == book[k];
    }
  }

  /** The swept book is still a book. */
  lemma SweptIsBook(book: Book, n: nat, now: Instant)
    requires Distinct(book) && Sorted(book) && |Fresh(book, now)| < n <= |book|
    ensures Distinct(ScanFor(book, n, now).rest) && Sorted(ScanFor(book, n, now).rest)
  {
    FreshIsSuffix(book, now);
    var k := |book| - |Fresh(book, now)|;
    assert Fresh(book, now) == book[k..|book|];
  }
}
