/** Who is given jobs, over every run: only workers that sent a heartbeat recently, since they were
    last given a job, and not within the cool-down after an assignment. The book's own instants are
    approximate after a sweep; these guarantees are about the true times in the log. */
module SchedulerHistory {
  import opened Common
  import opened Senders
  import opened WorkersBook
  import opened Scheduler
  import SchedulerState

  /** The fact at `j` admitted `w`, and `w` was given nothing from there up to `i`. */
  ghost predicate AdmittedSince(log: seq<Fact>, j: int, i: int, w: Sender) {
    && 0 <= j < i <= |log| && log[j].Admitted? && log[j].worker == w
    && forall k :: j < k < i && log[k].Given? ==> log[k].worker != w
  }

  ghost predicate Backed(e: Entry, log: seq<Fact>) {
    exists j :: AdmittedSince(log, j, |log|, e.worker) && e.seen <= log[j].at
  }

  /** Each entry of the book has such a heartbeat behind it, no older than the instant it carries. */
  ghost predicate BookBacked(book: Book, log: seq<Fact>) {
    forall i :: 0 <= i < |book| ==> Backed(book[i], log)
  }

  /** The worker given a job at `i` sent a heartbeat less than the stale time before, and was given
      nothing since that heartbeat. */
  ghost predicate Live(log: seq<Fact>, i: nat)
    requires i < |log|
  {
    exists j :: AdmittedSince(log, j, i, log[i].worker) && 0 <= log[i].at - log[j].at < STALE_TIME
  }

  ghost predicate GivenOnlyToLiveWorkers(log: seq<Fact>) {
    forall i :: 0 <= i < |log| && log[i].Given? ==> Live(log, i)
  }

  /** Nobody enters the book within the cool-down after being recorded as assigned. */
  ghost predicate CoolDownKept(log: seq<Fact>) {
    forall i, j :: 0 <= i < j < |log| && log[i].Recorded? && log[j].Admitted? && log[i].worker == log[j].worker
      ==> log[j].at - log[i].at >= COOL_DOWN_PERIOD
  }

  ghost predicate RecordsKnown(log: seq<Fact>, assignedAt: map<Sender, Instant>) {
    forall i :: 0 <= i < |log| && log[i].Recorded? ==>
      log[i].worker in assignedAt && log[i].at <= assignedAt[log[i].worker]
  }

  ghost predicate PastOnly(log: seq<Fact>, assignedAt: map<Sender, Instant>, now: Instant) {
    && (forall i, j :: 0 <= i < j < |log| ==> log[i].at <= log[j].at)
    && (forall i :: 0 <= i < |log| ==> log[i].at <= now)
    && (forall w :: w in assignedAt ==> assignedAt[w] <= now)
  }

  // ---------------------------------------------------------------- the log grows

  lemma LiveGrows(log: seq<Fact>, facts: seq<Fact>, i: nat)
    requires i < |log| && Live(log, i)
    ensures Live(log + facts, i)
  {
    var j :| AdmittedSince(log, j, i, log[i].worker) && 0 <= log[i].at - log[j].at < STALE_TIME;
    assert (log + facts)[j] == log[j] && (log + facts)[i] == log[i];
  }

  lemma StillLive(log: seq<Fact>, facts: seq<Fact>)
    requires GivenOnlyToLiveWorkers(log)
    requires forall i :: |log| <= i < |log + facts| && (log + facts)[i].Given? ==> Live(log + facts, i)
    ensures GivenOnlyToLiveWorkers(log + facts)
  {
    var log' := log + facts;
    forall i | 0 <= i < |log'| && log'[i].Given? ensures Live(log', i) {
      if i < |log| {
        assert log'[i] == log[i];
        LiveGrows(log, facts, i);
      }
    }
  }

  ghost predicate Spares(facts: seq<Fact>, w: Sender) {
    forall k :: 0 <= k < |facts| && facts[k].Given? ==> facts[k].worker != w
  }

  lemma BackedGrows(e: Entry, log: seq<Fact>, facts: seq<Fact>)
    requires Backed(e, log) && Spares(facts, e.worker)
    ensures Backed(e, log + facts)
  {
    var log' := log + facts;
    var j :| AdmittedSince(log, j, |log|, e.worker) && e.seen <= log[j].at;
    assert log'[j] == log[j];
    forall k | j < k < |log'| && log'[k].Given? ensures log'[k].worker != e.worker {
      if k < |log| { assert log'[k] == log[k]; } else { assert log'[k] == facts[k - |log|]; }
    }
    assert AdmittedSince(log', j, |log'|, e.worker);
  }

  lemma StillBacked(book: Book, log: seq<Fact>, facts: seq<Fact>)
    requires BookBacked(book, log)
    requires forall i :: 0 <= i < |book| ==> Spares(facts, book[i].worker)
    ensures BookBacked(book, log + facts)
  {
    forall i | 0 <= i < |book| ensures Backed(book[i], log + facts) {
      BackedGrows(book[i], log, facts);
    }
  }

  // ---------------------------------------------------------------- the book changes

  /** The entry stems from one of `before` that is no older. */
  ghost predicate Stems(before: Book, e: Entry) {
    exists k :: 0 <= k < |before| && before[k].worker == e.worker && e.seen <= before[k].seen
  }

  ghost predicate Shrinks(before: Book, after: Book) {
    forall i :: 0 <= i < |after| ==> Stems(before, after[i])
  }

  lemma AdmissionBacked(book: Book, log: seq<Fact>, w: Sender, t: Instant)
    requires BookBacked(book, log)
    ensures BookBacked(Insert(book, w, t), log + [Admitted(w, t)])
  {
    var log', rest, book' := log + [Admitted(w, t)], Without(book, w), Insert(book, w, t);
    StillBacked(rest, log, [Admitted(w, t)]);
    assert AdmittedSince(log', |log|, |log'|, w);
    assert Backed(Entry(w, t), log');
    forall i | 0 <= i < |book'| ensures Backed(book'[i], log') {
      assert book'[i] == if i < |rest| then rest[i] else Entry(w, t);
    }
  }

  /** The worker was in the book with a fresh instant. */
  ghost predicate FreshIn(book: Book, w: Sender, t: Instant) {
    exists k :: 0 <= k < |book| && book[k].worker == w && IsFresh(book[k], t)
  }

  /** A dispatch: its workers leave the book, and each was in it with a fresh instant. */
  ghost predicate Gives(before: Book, after: Book, workers: seq<Sender>, t: Instant) {
    && Shrinks(before, after)
    && (forall i :: 0 <= i < |workers| ==> FreshIn(before, workers[i], t))
    && (forall i, j :: 0 <= i < j < |workers| ==> workers[i] != workers[j])
    && (forall i, j :: 0 <= i < |after| && 0 <= j < |workers| ==> after[i].worker != workers[j])
  }

  lemma GivenIsLive(before: Book, workers: seq<Sender>, log: seq<Fact>, t: Instant, nth: nat, i: nat)
    requires BookBacked(before, log) && i < |workers| && FreshIn(before, workers[i], t)
    requires forall j :: 0 <= j < i ==> workers[j] != workers[i]
    requires forall j :: 0 <= j < |log| ==> log[j].at <= t
    ensures Live(log + GivenTo(workers, t, nth), |log| + i)
  {
    var facts := GivenTo(workers, t, nth);
    var log' := log + facts;
    var k :| 0 <= k < |before| && before[k].worker == workers[i] && IsFresh(before[k], t);
    assert Backed(before[k], log);
    var j :| AdmittedSince(log, j, |log|, before[k].worker) && before[k].seen <= log[j].at;
    assert log'[j] == log[j] && log'[|log| + i] == facts[i];
    forall n | j < n < |log| + i && log'[n].Given? ensures log'[n].worker != workers[i] {
      if n < |log| { assert log'[n] == log[n]; } else { assert log'[n] == facts[n - |log|]; }
    }
    assert AdmittedSince(log', j, |log| + i, workers[i]);
  }

  lemma GivingIsLive(before: Book, after: Book, workers: seq<Sender>, log: seq<Fact>, t: Instant, nth: nat)
    requires Gives(before, after, workers, t) && BookBacked(before, log) && GivenOnlyToLiveWorkers(log)
    requires forall i :: 0 <= i < |log| ==> log[i].at <= t
    ensures BookBacked(after, log + GivenTo(workers, t, nth))
    ensures GivenOnlyToLiveWorkers(log + GivenTo(workers, t, nth))
  {
    var facts := GivenTo(workers, t, nth);
    forall i | 0 <= i < |after| ensures Spares(facts, after[i].worker) {
      assert forall k :: 0 <= k < |facts| ==> facts[k].worker == workers[k];
    }
    StillBacked(after, log, facts);
    forall i | |log| <= i < |log + facts| ensures Live(log + facts, i) {
      GivenIsLive(before, workers, log, t, nth, i - |log|);
    }
    StillLive(log, facts);
  }

  lemma PickGives(book: Book, n: nat, t: Instant)
    requires Distinct(book) && Sorted(book) && n <= |WorkersBook.Fresh(book, t)|
    ensures var scan := ScanFor(book, n, t); Gives(book, scan.rest, scan.workers, t)
  {
    ScanPicks(book, n, t);
    PickedAreDistinct(book, n, t);
    var scan := ScanFor(book, n, t);
    forall i | 0 <= i < n ensures FreshIn(book, scan.workers[i], t) {
      assert book[|book| - 1 - i].worker == scan.workers[i];
    }
    forall i | 0 <= i < |scan.rest| ensures Stems(book, scan.rest[i]) {
      assert scan.rest[i] == book[i];
    }
  }

  lemma SweepShrinks(book: Book, n: nat, t: Instant)
    requires Sorted(book) && |WorkersBook.Fresh(book, t)| < n <= |book|
    ensures Shrinks(book, ScanFor(book, n, t).rest)
  {
    ScanSweeps(book, n, t);
    var rest := ScanFor(book, n, t).rest;
    forall i | 0 <= i < |rest| ensures Stems(book, rest[i]) {
      assert book[|book| - |rest| + i].worker == rest[i].worker;
    }
  }

  // ---------------------------------------------------------------- cool-down

  lemma GivingCool(log: seq<Fact>, assignedAt: map<Sender, Instant>, workers: seq<Sender>, t: Instant, nth: nat)
    requires CoolDownKept(log) && RecordsKnown(log, assignedAt)
    ensures CoolDownKept(log + GivenTo(workers, t, nth)) && RecordsKnown(log + GivenTo(workers, t, nth), assignedAt)
  {
  }

  // ---------------------------------------------------------------- every run

  ghost predicate HistoryOf(s: State, log: seq<Fact>) {
    && BookBacked(s.book, log) && GivenOnlyToLiveWorkers(log)
    && CoolDownKept(log) && RecordsKnown(log, s.assignedAt) && PastOnly(log, s.assignedAt, s.now)
  }

  ghost predicate HistoryInv(w: World) {
    HistoryOf(w.state, w.log)
  }

  lemma GivingKeepsHistory(s: State, s': State, log: seq<Fact>, workers: seq<Sender>, nth: nat)
    requires HistoryOf(s, log) && Gives(s.book, s'.book, workers, s'.now)
    requires s.now <= s'.now && s'.assignedAt == s.assignedAt
    ensures HistoryOf(s', log + GivenTo(workers, s'.now, nth))
  {
    GivingIsLive(s.book, s'.book, workers, log, s'.now, nth);
    GivingCool(log, s.assignedAt, workers, s'.now, nth);
  }

  lemma ShrinkingKeepsHistory(s: State, s': State, log: seq<Fact>)
    requires HistoryOf(s, log) && Shrinks(s.book, s'.book)
    requires s.now <= s'.now && s'.assignedAt == s.assignedAt
    ensures HistoryOf(s', log)
  {
  }

  lemma ShrinksSelf(book: Book, i: nat)
    requires i <= |book|
    ensures Shrinks(book, book[i..])
  {
  }

  /** The facts a step adds when it puts something on the channel, as the `nth` dispatch. */
  function GivenFrom(s: State, s': State, nth: nat): seq<Fact> {
    GivenBy(NewlySent(s, s'), s'.now, nth)
  }

  lemma OneGiven(s: State, s': State, d: Dispatch, nth: nat)
    requires s'.channel == s.channel + [d]
    ensures GivenFrom(s, s', nth) == GivenTo(d.workers, s'.now, nth)
  {
    assert NewlySent(s, s') == [d] && [d][1..] == [];
    assert GivenBy([d], s'.now, nth) == GivenTo(d.workers, s'.now, nth) + GivenBy([], s'.now, nth + 1);
    assert GivenTo(d.workers, s'.now, nth) + GivenBy([], s'.now, nth + 1) == GivenTo(d.workers, s'.now, nth);
  }

  lemma NoneGiven(s: State, s': State, log: seq<Fact>, nth: nat)
    requires s'.channel == s.channel
    ensures log + GivenFrom(s, s', nth) == log
  {
  }

  lemma DrainHistory(s: State, s': State, t: Instant, log: seq<Fact>, nth: nat)
    requires s' == Drain(s, t) && SchedulerState.BookInv(s) && s.now <= t && HistoryOf(s, log)
    ensures HistoryOf(s', log + GivenFrom(s, s', nth))
  {
    if s.queue == [] || |s.book| < s.queue[0].needed {
      ShrinksSelf(s.book, 0);
      ShrinkingKeepsHistory(s, s', log);
      NoneGiven(s, s', log, nth);
    } else if s.queue[0].needed <= |WorkersBook.Fresh(s.book, t)| {
      PickGives(s.book, s.queue[0].needed, t);
      var workers := ScanFor(s.book, s.queue[0].needed, t).workers;
      GivingKeepsHistory(s, s', log, workers, nth);
      OneGiven(s, s', Dispatch(workers, s.queue[0].job), nth);
    } else {
      FreshIsSuffix(s.book, t);
      SweepShrinks(s.book, s.queue[0].needed, t);
      ShrinkingKeepsHistory(s, s', log);
      NoneGiven(s, s', log, nth);
    }
  }

  lemma AdmitHistory(s: State, s': State, x: Sender, t0: Instant, t: Instant, log: seq<Fact>)
    requires s.now <= t0 <= t && !TooEarly(s.assignedAt, x, t0) && s' == Admit(s, x, t) && HistoryOf(s, log)
    ensures HistoryOf(s', log + [Admitted(x, t)])
  {
    AdmissionBacked(s.book, log, x, t);
    StillLive(log, [Admitted(x, t)]);
  }

  lemma HeartbeatHistory(s: State, x: Sender, t0: Instant, t1: Instant, t2: Instant, log: seq<Fact>,
                         nth: nat)
    requires SchedulerState.Inv(s) && s.now <= t0 <= t1 <= t2 && HistoryOf(s, log) && !TooEarly(s.assignedAt, x, t0)
    ensures var s' := OnHeartbeat(s, x, t0, t1, t2);
      HistoryOf(s', log + [Admitted(x, t1)] + GivenFrom(s, s', nth))
  {
    var a := Admit(s, x, t1);
    SchedulerState.AdmitKeeps(s, x, t1);
    AdmitHistory(s, a, x, t0, t1, log);
    DrainHistory(a, Drain(a, t2), t2, log + [Admitted(x, t1)], nth);
    assert GivenFrom(a, Drain(a, t2), nth) == GivenFrom(s, Trim(Drain(a, t2)), nth);
  }

  lemma NewJobHistory(s: State, job: Job, n: nat, delay: nat, log: seq<Fact>, nth: nat)
    requires SchedulerState.Inv(s) && HistoryOf(s, log)
    ensures var s' := OnNewJob(s, job, Some(n), delay); HistoryOf(s', log + GivenFrom(s, s', nth))
  {
    var t, s' := Later(s.now, delay), OnNewJob(s, job, Some(n), delay);
    if |s.book| < n {
      ShrinksSelf(s.book, 0);
      ShrinkingKeepsHistory(s, s', log);
      NoneGiven(s, s', log, nth);
    } else if n <= |WorkersBook.Fresh(s.book, t)| {
      PickGives(s.book, n, t);
      var workers := ScanFor(s.book, n, t).workers;
      GivingKeepsHistory(s, s', log, workers, nth);
      OneGiven(s, s', Dispatch(workers, job), nth);
    } else {
      FreshIsSuffix(s.book, t);
      SweepShrinks(s.book, n, t);
      ShrinkingKeepsHistory(s, s', log);
      NoneGiven(s, s', log, nth);
    }
  }

  lemma RecordingHistory(s: State, s': State, workers: seq<Sender>, log: seq<Fact>)
    requires HistoryOf(s, log) && s.now <= s'.now && s'.book == s.book
    requires s'.assignedAt == Record(s.assignedAt, workers, s'.now)
    ensures HistoryOf(s', log + RecordedFor(workers, s'.now))
  {
    var facts := RecordedFor(workers, s'.now);
    StillBacked(s.book, log, facts);
    StillLive(log, facts);
  }

  lemma QuietHistory(s: State, s': State, log: seq<Fact>)
    requires HistoryOf(s, log) && s.now <= s'.now && s'.book == s.book && s'.assignedAt == s.assignedAt
    ensures HistoryOf(s', log)
  {
  }

  lemma StepKeepsHistory(w: World, ev: Event)
    requires SchedulerState.Inv(w.state) && HistoryInv(w)
    ensures HistoryInv(WorldStep(w, ev))
  {
    var s, s' := w.state, Step(w.state, ev);
    match ev
    case Heartbeat(x, d0, d1, d2) =>
      var t0 := Later(s.now, d0);
      var t1 := Later(t0, d1);
      if TooEarly(s.assignedAt, x, t0) {
        QuietHistory(s, s', w.log);
      } else {
        HeartbeatHistory(s, x, t0, t1, Later(t1, d2), w.log, |w.sent|);
      }
    case NewJob(job, None, delay) => QuietHistory(s, s', w.log);
    case NewJob(job, Some(n), delay) => NewJobHistory(s, job, n, delay, w.log, |w.sent|);
    case Publish(ok, delay) =>
      if s.channel != [] && ok {
        RecordingHistory(s, s', s.channel[0].workers, w.log);
      } else {
        QuietHistory(s, s', w.log);
      }
    case Attempt(task, ok, delay) =>
      if task < |s.retrying| && ok {
        RecordingHistory(s, s', s.retrying[task].dispatch.workers, w.log);
      } else {
        QuietHistory(s, s', w.log);
      }
  }

  /** Over every run, and although sweeps rewrite the book's instants: each worker ever given a job had
      sent an admitted heartbeat less than the stale time before and been given nothing since; nobody
      was admitted within the cool-down after being recorded as assigned; and each recorded instant in
      the book is no later than that worker's true last admitted heartbeat. */
  lemma {:induction false} OnlyLiveRestedWorkersAreGivenJobs(events: seq<Event>)
    ensures HistoryInv(Run(events))
  {
    if events != [] {
      OnlyLiveRestedWorkersAreGivenJobs(events[..|events| - 1]);
      SchedulerState.EveryRunKeepsInv(events[..|events| - 1]);
      StepKeepsHistory(Run(events[..|events| - 1]), events[|events| - 1]);
    }
  }

  /** The last admission of `w` in the log. */
  ghost predicate LastAdmission(log: seq<Fact>, j: int, w: Sender) {
    && 0 <= j < |log| && log[j].Admitted? && log[j].worker == w
    && forall k :: j < k < |log| && log[k].Admitted? ==> log[k].worker != w
  }

  lemma LastAdmissionFrom(log: seq<Fact>, j: nat, w: Sender) returns (last: nat)
    requires j < |log| && log[j].Admitted? && log[j].worker == w
    ensures j <= last && LastAdmission(log, last, w)
  {
    last := |log| - 1;
    while !(log[last].Admitted? && log[last].worker == w)
      invariant j <= last < |log|
      invariant forall k :: last < k < |log| && log[k].Admitted? ==> log[k].worker != w
      decreases last
    {
      last := last - 1;
    }
  }

  /** The instant in the book never flatters a worker: it is no later than its last admitted heartbeat. */
  lemma BookTimesAreConservative(s: State, log: seq<Fact>, i: nat)
    requires HistoryOf(s, log) && i < |s.book|
    ensures exists j :: LastAdmission(log, j, s.book[i].worker) && s.book[i].seen <= log[j].at
  {
    var e := s.book[i];
    assert Backed(e, log);
    var j :| AdmittedSince(log, j, |log|, e.worker) && e.seen <= log[j].at;
    var last := LastAdmissionFrom(log, j, e.worker);
    assert j == last || log[j].at <= log[last].at;
  }
}
