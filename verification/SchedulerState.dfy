/** What every event keeps true of the assigner's state: an ordered book, exact metrics, and no job
    left waiting that the book could serve. */
module SchedulerState {
  import opened Common
  import Senders
  import opened WorkersBook
  import opened Scheduler

  ghost predicate BookInv(s: State) {
    Distinct(s.book) && Sorted(s.book) && UpTo(s.book, s.now)
  }

  ghost predicate MetricsInv(s: State) {
    s.workersOnline == |s.book| && s.cachedJobs == |s.queue|
  }

  /** The front job needs more workers than there are; no queued job needs none. */
  ghost predicate WaitInv(s: State) {
    && (s.queue != [] ==> |s.book| < s.queue[0].needed)
    && forall i :: 0 <= i < |s.queue| ==> s.queue[i].needed >= 1
  }

  ghost predicate Inv(s: State) {
    BookInv(s) && MetricsInv(s) && WaitInv(s) && |s.book| <= MAX_WORKERS
  }

  /** The state between admission and draining: at most one worker more than the front job waited for. */
  ghost predicate Ready(s: State) {
    && BookInv(s) && MetricsInv(s)
    && (s.queue != [] ==> |s.book| <= s.queue[0].needed)
    && forall i :: 0 <= i < |s.queue| ==> s.queue[i].needed >= 1
  }

  lemma AdmitKeeps(s: State, w: Senders.Sender, t: Instant)
    requires Inv(s) && s.now <= t
    ensures Ready(Admit(s, w, t)) && |Admit(s, w, t).book| <= MAX_WORKERS + 1
  {
    InsertKeeps(s.book, w, t);
  }

  /** One look at the queue is enough: a dispatch takes the whole book, a sweep leaves too few. */
  lemma DrainKeeps(s: State, t: Instant)
    requires Ready(s) && s.now <= t
    ensures var s' := Drain(s, t);
      && BookInv(s') && MetricsInv(s') && WaitInv(s') && |s'.book| <= |s.book|
      && (s'.channel != s.channel ==> s'.book == [] && |s'.channel| == |s.channel| + 1)
  {
    if s.queue != [] && s.queue[0].needed <= |s.book| {
      var n, young := s.queue[0].needed, WorkersBook.Fresh(s.book, t);
      FreshIsSuffix(s.book, t);
      if n <= |young| {
        PickedAreDistinct(s.book, n, t);
      } else {
        SweptIsBook(s.book, n, t);
        SweptSeen(s, n, t);
      }
    }
  }

  lemma SweptSeen(s: State, n: nat, t: Instant)
    requires BookInv(s) && |WorkersBook.Fresh(s.book, t)| < n <= |s.book|
    ensures UpTo(ScanFor(s.book, n, t).rest, s.now)
  {
    ScanSweeps(s.book, n, t);
    var rest := ScanFor(s.book, n, t).rest;
    forall i | 0 <= i < |rest| ensures rest[i].seen <= s.now {
      assert rest[i].seen <= s.book[|s.book| - |rest| + i].seen;
    }
  }

  lemma DrainThenTrimKeeps(s: State, t: Instant)
    requires Ready(s) && |s.book| <= MAX_WORKERS + 1 && s.now <= t
    ensures Inv(Trim(Drain(s, t)))
    ensures Trim(Drain(s, t)).channel != s.channel ==> Trim(Drain(s, t)).book == []
    ensures |s.channel| <= |Trim(Drain(s, t)).channel| <= |s.channel| + 1
  {
    DrainKeeps(s, t);
  }

  lemma AdmitDrainTrimKeeps(s: State, w: Senders.Sender, t: Instant, t': Instant)
    requires Inv(s) && s.now <= t <= t'
    ensures var s' := Trim(Drain(Admit(s, w, t), t'));
      && Inv(s') && |s.channel| <= |s'.channel| <= |s.channel| + 1
      && (s'.channel != s.channel ==> s'.book == [])
  {
    AdmitKeeps(s, w, t);
    DrainThenTrimKeeps(Admit(s, w, t), t');
  }

  /** A heartbeat starts at most one job, and when it does it uses up the book. */
  lemma HeartbeatKeeps(s: State, w: Senders.Sender, t0: Instant, t1: Instant, t2: Instant)
    requires Inv(s) && s.now <= t0 <= t1 <= t2
    ensures var s' := OnHeartbeat(s, w, t0, t1, t2);
      && Inv(s') && |s.channel| <= |s'.channel| <= |s.channel| + 1
      && (s'.channel != s.channel ==> s'.book == [])
  {
    if !TooEarly(s.assignedAt, w, t0) {
      AdmitDrainTrimKeeps(s, w, t1, t2);
    }
  }

  lemma NewJobKeeps(s: State, job: Job, needed: Option<nat>, delay: nat)
    requires Inv(s)
    ensures Inv(OnNewJob(s, job, needed, delay))
    ensures needed.Some? && needed.value <= |s.book| ==> !ScanFor(s.book, needed.value, Later(s.now, delay)).Exhausted?
  {
    var t := Later(s.now, delay);
    if needed.Some? && needed.value <= |s.book| {
      var n, young := needed.value, WorkersBook.Fresh(s.book, t);
      FreshIsSuffix(s.book, t);
      if n <= |young| {
        PickedAreDistinct(s.book, n, t);
      } else {
        SweptIsBook(s.book, n, t);
        SweptSeen(s, n, t);
      }
    }
  }

  lemma StepKeeps(s: State, ev: Event)
    requires Inv(s)
    ensures Inv(Step(s, ev))
  {
    match ev
    case Heartbeat(w, d0, d1, d2) =>
      var t0 := Later(s.now, d0);
      var t1 := Later(t0, d1);
      HeartbeatKeeps(s, w, t0, t1, Later(t1, d2));
    case NewJob(job, needed, delay) => NewJobKeeps(s, job, needed, delay);
    case Publish(_, _) =>
    case Attempt(_, _, _) =>
  }

  /** After every event of every run: the book is sorted oldest to newest without repetition and
      within its bound, the metrics are exact, and the queue is empty or its front job needs more
      workers than the book holds. */
  lemma {:induction false} EveryRunKeepsInv(events: seq<Event>)
    ensures Inv(Run(events).state)
  {
    if events != [] {
      EveryRunKeepsInv(events[..|events| - 1]);
      StepKeeps(Run(events[..|events| - 1]).state, events[|events| - 1]);
    }
  }
}
