/** What one heartbeat and one job do, in plain terms: who enters the book, who is given which job, and what
    stays. Times are in nanoseconds: workers rest for 30 s after an assignment and are stale after 300 s. */
module SchedulerEffects {
  import opened Common
  import opened Senders
  import opened WorkersBook
  import opened Scheduler
  import SchedulerState

  /** The worker was given no job within the last 30 seconds. */
  predicate Rested(assignedAt: map<Sender, Instant>, w: Sender, now: Instant) {
    w !in assignedAt || now - assignedAt[w] >= 30_000_000_000
  }

  predicate Young(e: Entry, now: Instant) {
    now - e.seen < 300_000_000_000
  }

  /** The workers of `book` from the newest to the oldest. */
  predicate NewestOf(workers: seq<Sender>, book: Book) {
    |workers| == |book| && forall k :: 0 <= k < |book| ==> workers[k] == book[|book| - 1 - k].worker
  }

  lemma IndexIsUnique(book: Book, i: nat)
    requires Distinct(book) && i < |book|
    ensures IndexOf(book, book[i].worker) == i
  {
    var k := IndexOf(book, book[i].worker);
    assert k <= i;
    assert k < |book| && book[k].worker == book[i].worker;
  }

  /** A heartbeat of a rested worker that is not in the book, with no job waiting: it joins at the back, and the
      oldest entry goes when there are already ten thousand. */
  lemma NewWorkerJoins(s: State, w: Sender, t0: Instant, t1: Instant, t2: Instant)
    requires SchedulerState.Inv(s) && s.now <= t0 <= t1 <= t2 && Rested(s.assignedAt, w, t0) && s.queue == []
    requires forall i :: 0 <= i < |s.book| ==> s.book[i].worker != w
    ensures var s' := OnHeartbeat(s, w, t0, t1, t2);
      && s'.book == (if |s.book| < 10_000 then s.book else s.book[1..]) + [Entry(w, t1)]
      && s'.channel == s.channel && s'.queue == [] && s'.now == t2
  {
    assert s.book == [] || (s.book + [Entry(w, t1)])[1..] == s.book[1..] + [Entry(w, t1)];
  }

  /** And that of one that is in the book already: it moves to the back. */
  lemma KnownWorkerMoves(s: State, i: nat, t0: Instant, t1: Instant, t2: Instant)
    requires SchedulerState.Inv(s) && s.now <= t0 <= t1 <= t2 && s.queue == []
    requires i < |s.book| && Rested(s.assignedAt, s.book[i].worker, t0)
    ensures var s' := OnHeartbeat(s, s.book[i].worker, t0, t1, t2);
      && s'.book == s.book[..i] + s.book[i + 1..] + [Entry(s.book[i].worker, t1)]
      && s'.channel == s.channel && s'.queue == [] && s'.now == t2
  {
    IndexIsUnique(s.book, i);
  }

  /** Either way it is the last entry, with the time of its heartbeat. */
  lemma HeartbeatEntersBook(s: State, w: Sender, t0: Instant, t1: Instant, t2: Instant)
    requires SchedulerState.Inv(s) && s.now <= t0 <= t1 <= t2 && Rested(s.assignedAt, w, t0) && s.queue == []
    ensures var book := OnHeartbeat(s, w, t0, t1, t2).book; book != [] && book[|book| - 1] == Entry(w, t1)
  {
    if Contains(s.book, w) {
      KnownWorkerMoves(s, IndexOf(s.book, w), t0, t1, t2);
    } else {
      NewWorkerJoins(s, w, t0, t1, t2);
    }
  }

  /** A heartbeat within 30 seconds of an assignment changes nothing. */
  lemma TiredWorkerIsIgnored(s: State, w: Sender, t0: Instant, t1: Instant, t2: Instant)
    requires !Rested(s.assignedAt, w, t0)
    ensures OnHeartbeat(s, w, t0, t1, t2) == s.(now := t0)
  {
  }

  /** The front job starts with all the workers of the book. */
  ghost predicate StartsWithAll(s: State, s': State, book: Book) {
    && |s'.channel| == |s.channel| + 1 && s'.channel[..|s.channel|] == s.channel
    && s.queue != [] && s'.channel[|s.channel|].job == s.queue[0].job
    && NewestOf(s'.channel[|s.channel|].workers, book)
    && s'.queue == s.queue[1..] && s'.book == []
  }

  lemma DrainStartsWithAll(s: State, t: Instant)
    requires s.queue != [] && s.queue[0].needed == |s.book|
    requires forall i :: 0 <= i < |s.book| ==> Young(s.book[i], t)
    ensures StartsWithAll(s, Drain(s, t), s.book)
  {
    AllYoungAreFresh(s.book, t);
    assert s.book[|s.book| - s.queue[0].needed..] == s.book && s.book[..0] == [];
  }

  /** When the front job needs just one worker more than the book holds, and all of them are young, the new
      one completes them: they are given the job, newest first. */
  lemma LastWorkerStartsFront(s: State, w: Sender, t0: Instant, t1: Instant, t2: Instant)
    requires SchedulerState.Inv(s) && s.now <= t0 <= t1 <= t2 && Rested(s.assignedAt, w, t0)
    requires s.queue != [] && s.queue[0].needed == |s.book| + 1 && t2 - t1 < 300_000_000_000
    requires forall i :: 0 <= i < |s.book| ==> s.book[i].worker != w && Young(s.book[i], t2)
    ensures StartsWithAll(s, OnHeartbeat(s, w, t0, t1, t2), s.book + [Entry(w, t1)])
  {
    var a := Admit(s, w, t1);
    assert a.book == s.book + [Entry(w, t1)];
    DrainStartsWithAll(a, t2);
  }

  lemma AllYoungAreFresh(book: Book, now: Instant)
    requires forall i :: 0 <= i < |book| ==> Young(book[i], now)
    ensures WorkersBook.Fresh(book, now) == book
  {
    FreshFrom(book, now, 0);
  }

  /** So a waiting job for one worker starts with the first rested worker that sends a heartbeat. */
  lemma OneWorkerStartsFront(s: State, w: Sender, t0: Instant, t1: Instant, t2: Instant)
    requires SchedulerState.Inv(s) && s.now <= t0 <= t1 <= t2 && Rested(s.assignedAt, w, t0)
    requires s.queue != [] && s.queue[0].needed == 1 && t2 - t1 < 300_000_000_000
    ensures OnHeartbeat(s, w, t0, t1, t2).channel == s.channel + [Dispatch([w], s.queue[0].job)]
  {
    LastWorkerStartsFront(s, w, t0, t1, t2);
    var d := OnHeartbeat(s, w, t0, t1, t2).channel[|s.channel|];
    assert d.workers == [w];
  }

  // ---------------------------------------------------------------- a new job

  /** The newest `n` entries are young. */
  predicate EnoughYoung(book: Book, n: nat, now: Instant) {
    n <= |book| && forall i :: |book| - n <= i < |book| ==> Young(book[i], now)
  }

  /** A valid job starts at once with the newest workers, when enough of them are young. */
  lemma JobStarts(s: State, job: Job, n: nat, delay: nat)
    requires SchedulerState.Inv(s) && EnoughYoung(s.book, n, Later(s.now, delay))
    ensures var s' := OnNewJob(s, job, Some(n), delay);
      && |s'.channel| == |s.channel| + 1 && s'.channel[..|s.channel|] == s.channel
      && s'.channel[|s.channel|].job == job
      && NewestOf(s'.channel[|s.channel|].workers, s.book[|s.book| - n..])
      && s'.book == s.book[..|s.book| - n] && s'.queue == s.queue
  {
    var now := Later(s.now, delay);
    ScanSucceedsIff(s.book, n, now);
    if n > 0 { assert Young(s.book[|s.book| - n], now); }
    ScanPicks(s.book, n, now);
  }

  lemma TooFewYoung(book: Book, n: nat, now: Instant)
    requires Sorted(book) && n <= |book| && !EnoughYoung(book, n, now)
    ensures |WorkersBook.Fresh(book, now)| < n
  {
    ScanSucceedsIff(book, n, now);
    assert exists i :: |book| - n <= i < |book| && !IsFresh(book[i], now);
  }

  /** Otherwise it waits at the end of the queue. */
  lemma JobWaits(s: State, job: Job, n: nat, delay: nat)
    requires SchedulerState.Inv(s) && !EnoughYoung(s.book, n, Later(s.now, delay))
    ensures var s' := OnNewJob(s, job, Some(n), delay);
      s'.queue == s.queue + [Queued(job, n)] && s'.channel == s.channel && (|s.book| < n ==> s'.book == s.book)
  {
    if n <= |s.book| { TooFewYoung(s.book, n, Later(s.now, delay)); }
  }

  /** And of a book that was large enough, the young workers stay. */
  lemma YoungWorkersStay(s: State, job: Job, n: nat, delay: nat)
    requires SchedulerState.Inv(s) && !EnoughYoung(s.book, n, Later(s.now, delay)) && n <= |s.book|
    ensures forall w :: Contains(OnNewJob(s, job, Some(n), delay).book, w) <==> HasYoung(s.book, w, Later(s.now, delay))
  {
    TooFewYoung(s.book, n, Later(s.now, delay));
    ScanSweeps(s.book, n, Later(s.now, delay));
    SweptContains(s.book, n, Later(s.now, delay));
  }

  predicate HasYoung(book: Book, w: Sender, now: Instant) {
    exists i :: 0 <= i < |book| && book[i].worker == w && Young(book[i], now)
  }

  lemma SweptContains(book: Book, n: nat, now: Instant)
    requires Sorted(book) && |WorkersBook.Fresh(book, now)| < n <= |book|
    ensures forall w :: Contains(ScanFor(book, n, now).rest, w) <==> HasYoung(book, w, now)
  {
    ScanSweeps(book, n, now);
    FreshIsSuffix(book, now);
    var rest := ScanFor(book, n, now).rest;
    forall w ensures Contains(rest, w) <==> HasYoung(book, w, now) {
      if Contains(rest, w) {
        var e := book[|book| - |rest| + IndexOf(rest, w)];
        assert e.worker == w && Young(e, now);
      }
      if HasYoung(book, w, now) {
        var i :| 0 <= i < |book| && book[i].worker == w && Young(book[i], now);
        assert IsFresh(book[i], now);
        assert rest[i - (|book| - |rest|)].worker == w;
      }
    }
  }

  /** A job that validation refused changes nothing. */
  lemma RefusedJobIsIgnored(s: State, job: Job, delay: nat)
    ensures OnNewJob(s, job, None, delay) == s.(now := Later(s.now, delay))
  {
  }

  // ---------------------------------------------------------------- over every run

  /** The last time the log records an assignment of `w`. */
  function LastRecord(log: seq<Fact>, w: Sender): Option<Instant> {
    if log == [] then None
    else
      var last := log[|log| - 1];
      if last.Recorded? && last.worker == w then Some(last.at) else LastRecord(log[..|log| - 1], w)
  }

  lemma {:induction false} LastRecordMore(log: seq<Fact>, facts: seq<Fact>, w: Sender)
    ensures LastRecord(log + facts, w)
         == if LastRecord(facts, w).Some? then LastRecord(facts, w) else LastRecord(log, w)
  {
    if facts == [] {
      assert log + facts == log;
    } else {
      LastRecordMore(log, facts[..|facts| - 1], w);
      assert (log + facts)[..|log + facts| - 1] == log + facts[..|facts| - 1];
    }
  }

  lemma {:induction false} NoRecords(facts: seq<Fact>, w: Sender)
    requires forall i :: 0 <= i < |facts| ==> !facts[i].Recorded?
    ensures LastRecord(facts, w) == None
  {
    if facts != [] { NoRecords(facts[..|facts| - 1], w); }
  }

  lemma {:induction false} GivenAreNoRecords(ds: seq<Dispatch>, t: Instant, nth: nat)
    ensures forall i :: 0 <= i < |GivenBy(ds, t, nth)| ==> !GivenBy(ds, t, nth)[i].Recorded?
  {
    if ds != [] { GivenAreNoRecords(ds[1..], t, nth + 1); }
  }

  lemma {:induction false} RecordedForAll(workers: seq<Sender>, t: Instant, w: Sender)
    ensures LastRecord(RecordedFor(workers, t), w) == if w in workers then Some(t) else None
  {
    var facts := RecordedFor(workers, t);
    if workers != [] {
      var init := workers[..|workers| - 1];
      RecordedForAll(init, t, w);
      assert facts[..|facts| - 1] == RecordedFor(init, t);
      assert workers == init + [workers[|workers| - 1]];
    }
  }

  /** The map holds the last recorded assignment of every sender, and nothing else. */
  ghost predicate MapIsLastRecord(assignedAt: map<Sender, Instant>, log: seq<Fact>) {
    forall w :: LastRecord(log, w) == if w in assignedAt then Some(assignedAt[w]) else None
  }

  lemma QuietRecords(w: World, facts: seq<Fact>)
    requires MapIsLastRecord(w.state.assignedAt, w.log) && forall i :: 0 <= i < |facts| ==> !facts[i].Recorded?
    ensures MapIsLastRecord(w.state.assignedAt, w.log + facts)
  {
    forall x ensures LastRecord(w.log + facts, x) == LastRecord(w.log, x) {
      LastRecordMore(w.log, facts, x);
      NoRecords(facts, x);
    }
  }

  lemma NewRecords(w: World, workers: seq<Sender>, t: Instant)
    requires MapIsLastRecord(w.state.assignedAt, w.log)
    ensures MapIsLastRecord(Record(w.state.assignedAt, workers, t), w.log + RecordedFor(workers, t))
  {
    forall x ensures LastRecord(w.log + RecordedFor(workers, t), x) ==
      if x in workers then Some(t) else LastRecord(w.log, x)
    {
      LastRecordMore(w.log, RecordedFor(workers, t), x);
      RecordedForAll(workers, t, x);
    }
  }

  lemma HeartbeatLeavesRecords(s: State, x: Sender, t0: Instant, t1: Instant, t2: Instant)
    ensures OnHeartbeat(s, x, t0, t1, t2).assignedAt == s.assignedAt
  {
    var admitted := Admit(s, x, t1);
  }

  lemma HeartbeatRecords(w: World, x: Sender, d0: nat, d1: nat, d2: nat)
    requires MapIsLastRecord(w.state.assignedAt, w.log)
    ensures var w' := WorldStep(w, Heartbeat(x, d0, d1, d2)); MapIsLastRecord(w'.state.assignedAt, w'.log)
  {
    var w' := WorldStep(w, Heartbeat(x, d0, d1, d2));
    var t0 := Later(w.state.now, d0);
    var t1 := Later(t0, d1);
    var sent := NewlySent(w.state, w'.state);
    var admission, given := [Admitted(x, t1)], GivenBy(sent, w'.state.now, |w.sent|);
    HeartbeatLeavesRecords(w.state, x, t0, t1, Later(t1, d2));
    if !TooEarly(w.state.assignedAt, x, t0) {
      GivenAreNoRecords(sent, w'.state.now, |w.sent|);
      QuietRecords(w, admission + given);
      Associate(w.log, admission, given);
    }
  }

  lemma NewJobRecords(w: World, job: Job, needed: Option<nat>, delay: nat)
    requires MapIsLastRecord(w.state.assignedAt, w.log)
    ensures var w' := WorldStep(w, NewJob(job, needed, delay)); MapIsLastRecord(w'.state.assignedAt, w'.log)
  {
    var w' := WorldStep(w, NewJob(job, needed, delay));
    var sent := NewlySent(w.state, w'.state);
    GivenAreNoRecords(sent, w'.state.now, |w.sent|);
    QuietRecords(w, GivenBy(sent, w'.state.now, |w.sent|));
  }

  lemma StepRecords(w: World, ev: Event)
    requires MapIsLastRecord(w.state.assignedAt, w.log)
    ensures var w' := WorldStep(w, ev); MapIsLastRecord(w'.state.assignedAt, w'.log)
  {
    var t := WorldStep(w, ev).state.now;
    match ev
    case Heartbeat(x, d0, d1, d2) => HeartbeatRecords(w, x, d0, d1, d2);
    case NewJob(job, needed, delay) => NewJobRecords(w, job, needed, delay);
    case Publish(ok, _) =>
      if w.state.channel != [] && ok { NewRecords(w, w.state.channel[0].workers, t); }
    case Attempt(task, ok, _) =>
      if task < |w.state.retrying| && ok { NewRecords(w, w.state.retrying[task].dispatch.workers, t); }
  }

  lemma {:induction false} RecordsAreKept(events: seq<Event>)
    ensures MapIsLastRecord(Run(events).state.assignedAt, Run(events).log)
  {
    if events != [] {
      RecordsAreKept(events[..|events| - 1]);
      StepRecords(Run(events[..|events| - 1]), events[|events| - 1]);
    }
  }

  lemma {:induction false} LastRecordIsRecorded(log: seq<Fact>, w: Sender)
    ensures LastRecord(log, w).Some? ==>
      exists i :: 0 <= i < |log| && log[i].Recorded? && log[i].worker == w && log[i].at == LastRecord(log, w).value
  {
    if log != [] && LastRecord(log, w).Some? {
      var last := log[|log| - 1];
      if last.Recorded? && last.worker == w {
        assert log[|log| - 1].at == LastRecord(log, w).value;
      } else {
        LastRecordIsRecorded(log[..|log| - 1], w);
      }
    }
  }

  /** No recorded assignment of `w` within 30 seconds before `now`. */
  ghost predicate RestedSince(log: seq<Fact>, w: Sender, now: Instant) {
    forall i :: 0 <= i < |log| && log[i].Recorded? && log[i].worker == w ==> now - log[i].at >= 30_000_000_000
  }

  lemma RestedByLog(events: seq<Event>, w: Sender, now: Instant)
    requires RestedSince(Run(events).log, w, now)
    ensures Rested(Run(events).state.assignedAt, w, now)
  {
    RecordsAreKept(events);
    LastRecordIsRecorded(Run(events).log, w);
  }

  lemma HeartbeatSends(w: World, x: Sender, d0: nat, d1: nat, d2: nat, d: Dispatch)
    requires !TooEarly(w.state.assignedAt, x, Later(w.state.now, d0))
    requires Step(w.state, Heartbeat(x, d0, d1, d2)).channel == w.state.channel + [d]
    ensures WorldStep(w, Heartbeat(x, d0, d1, d2)).sent == w.sent + [d]
  {
    assert NewlySent(w.state, Step(w.state, Heartbeat(x, d0, d1, d2))) == [d];
  }

  /** After every run, a heartbeat of a worker with no recorded assignment in the last 30 seconds enters the
      book when no job waits, and starts the front job when that needs one worker. */
  lemma RestedWorkersServe(events: seq<Event>, x: Sender, d0: nat, d1: nat, d2: nat)
    requires RestedSince(Run(events).log, x, Later(Run(events).state.now, d0))
    ensures var w, after := Run(events), Run(events + [Heartbeat(x, d0, d1, d2)]);
      var s, t1, book := w.state, Later(Later(w.state.now, d0), d1), after.state.book;
      && (s.queue == [] ==> book != [] && book[|book| - 1] == Entry(x, t1))
      && (s.queue != [] && s.queue[0].needed == 1 && Later(t1, d2) - t1 < 300_000_000_000 ==>
           after.sent == w.sent + [Dispatch([x], s.queue[0].job)])
  {
    var w, all := Run(events), events + [Heartbeat(x, d0, d1, d2)];
    var s := w.state;
    var t0 := Later(s.now, d0);
    var t1 := Later(t0, d1);
    var t2 := Later(t1, d2);
    assert all[..|all| - 1] == events;
    SchedulerState.EveryRunKeepsInv(events);
    RestedByLog(events, x, t0);
    HeartbeatStep(s, x, d0, d1, d2, t0, t1, t2);
    if s.queue == [] {
      HeartbeatEntersBook(s, x, t0, t1, t2);
    } else if s.queue[0].needed == 1 && t2 - t1 < 300_000_000_000 {
      OneWorkerStartsFront(s, x, t0, t1, t2);
      HeartbeatSends(w, x, d0, d1, d2, Dispatch([x], s.queue[0].job));
    }
  }
}
