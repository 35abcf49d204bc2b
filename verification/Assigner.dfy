/** The assigner as the program runs it (nostr-client-plus/src/bin/assigner.rs): one object whose
    methods change the book, the queue and the metrics in place, each proved to do what Scheduler says. */
module Assigner {
  import opened Common
  import opened Senders
  import opened Wire
  import opened JobProtocol
  import opened WorkersBook
  import Scheduler
  import opened SchedulerState
  import SchedulerJobs

  /** `validate_job`: the number of workers for a job, or an error, or a panic of the signature check. */
  function ValidateJob(job: EventOnWire, whitelist: set<Sender>, idHash: EventOnWire -> Bytes32, signed: bool)
    : Outcome<Result<nat>>
  {
    if job.sender !in whitelist then Return(Err)
    else
      match Verify(job, idHash, signed)
      case Panic => Panic
      case Return(false) => Return(Err)
      case Return(true) => Return(WorkersNeeded(job.tags))
  }

  function WorkersNeeded(tags: seq<Tag>): Result<nat> {
    match SingleTag("t", tags)
    case Ok(Some(name)) =>
      (match ParseJobType(name)
       case Ok(jobType) => Ok(jobType.Workers())
       case Err => Err)
    case _ => Err
  }

  function Verdict(result: Result<nat>): Option<nat> {
    match result case Ok(n) => Some(n) case Err => None
  }

  /** What `get_workers` leaves behind: its result, the book and the metric of workers online. */
  ghost predicate Scanned(before: Book, n: nat, t: Instant, result: Option<seq<Sender>>, after: Book,
                          online: int, online': int) {
    match ScanFor(before, n, t)
    case Picked(workers, rest) => result == Some(workers) && after == rest && online' == online - n
    case Swept(rest) => result == None && after == rest && online' == |rest|
    case Exhausted => result == None && after == [] && online' == online
  }

  lemma FreshOnes(book: Book, t: Instant)
    requires Sorted(book)
    ensures FreshFromTheBack(book, t)
  {
    FreshIsSuffix(book, t);
  }

  /** The newest workers of the book, newest first. */
  ghost predicate Popped(book: Book, workers: seq<Sender>) {
    |workers| <= |book| && forall k :: 0 <= k < |workers| ==> workers[k] == book[|book| - 1 - k].worker
  }

  lemma PoppedNewest(book: Book, workers: seq<Sender>)
    requires Popped(book, workers)
    ensures workers == NewestFirst(book[|book| - |workers|..])
  {
  }

  lemma ScannedEnough(book: Book, workers: seq<Sender>, t: Instant, online: int)
    requires Popped(book, workers) && |workers| <= |Fresh(book, t)|
    ensures var n := |workers|; Scanned(book, n, t, Some(workers), book[..|book| - n], online, online - n)
  {
    PoppedNewest(book, workers);
  }

  /** Draining in terms of one scan for the front job. */
  lemma DrainFollowsScan(s: Scheduler.State, t: Instant, result: Option<seq<Sender>>, after: Book, online: int)
    requires s.queue != [] && s.queue[0].needed <= |s.book| && Sorted(s.book)
    requires Scanned(s.book, s.queue[0].needed, t, result, after, s.workersOnline, online)
    ensures Scheduler.Drain(s, t) ==
      match result
      case None => s.(now := t, book := after, workersOnline := online)
      case Some(workers) =>
        s.(now := t, book := after, workersOnline := online, queue := s.queue[1..], cachedJobs := s.cachedJobs - 1,
           channel := s.channel + [Scheduler.Dispatch(workers, s.queue[0].job)])
    ensures result.Some? ==> after == s.book[..|s.book| - s.queue[0].needed]
  {
  }

  /** The step an event amounts to, and whether handling it succeeds. A panic is the end of the program. */
  ghost predicate Handles(ev: EventOnWire, validation: Outcome<Result<nat>>, outcome: Outcome<bool>,
                          step: Option<Scheduler.Event>)
  {
    if ev.kind == 6001 then
      outcome == Return(true) && step.Some? && step.value.Heartbeat? && step.value.worker == ev.sender
    else if ev.kind == 6000 then
      match validation
      case Panic => outcome == Panic && step == None
      case Return(result) =>
        && outcome == Return(result.Ok?) && step.Some? && step.value.NewJob? && step.value.job == ev
        && step.value.needed == Verdict(result)
    else outcome == Return(true) && step == None
  }

  datatype Ending = Enough | MetStale | RanOut

  /** The fresh entries are the last ones. */
  ghost predicate FreshFromTheBack(book: Book, now: Instant) {
    forall i :: 0 <= i < |book| ==> (IsFresh(book[i], now) <==> |book| - |Fresh(book, now)| <= i)
  }

  class Context {
    const whitelist: set<Sender>
    const idHash: EventOnWire -> Bytes32
    var now: Instant  // the last clock reading
    var book: Book
    var queue: seq<Scheduler.Queued>
    var assignedSenders: map<Sender, Instant>
    var channel: seq<Scheduler.Dispatch>
    var retrying: seq<Scheduler.Retry>
    var workersOnline: int
    var cachedJobs: int
    var assignedJobs: int

    ghost function State(): Scheduler.State
      reads this
    {
      Scheduler.State(now, book, queue, assignedSenders, channel, retrying, workersOnline, cachedJobs, assignedJobs)
    }

    constructor (whitelist: set<Sender>, idHash: EventOnWire -> Bytes32)
      ensures State() == Scheduler.INITIAL && this.whitelist == whitelist && this.idHash == idHash
    {
      this.whitelist, this.idHash := whitelist, idHash;
      now, book, queue, assignedSenders := 0, [], [], map[];
      channel, retrying, workersOnline, cachedJobs, assignedJobs := [], [], 0, 0, 0;
    }

    /** `Instant::now()`: never earlier than the reading before. */
    method ReadClock() returns (t: Instant)
      modifies this`now
      ensures old(now) <= now == t
    {
      t :| t >= now;
      now := t;
    }

    method IsTooEarly(sender: Sender) returns (early: bool)
      modifies this`now
      ensures old(now) <= now
      ensures early <==> Scheduler.TooEarly(assignedSenders, sender, now)
    {
      if sender in assignedSenders {
        var t := ReadClock();
        early := !(t - assignedSenders[sender] >= COOL_DOWN_PERIOD);
      } else {
        early := false;
      }
    }

    method CheckAvailWorkers() returns (needed: Option<nat>)
      ensures needed == if queue != [] && queue[0].needed <= |book| then Some(queue[0].needed) else None
    {
      if queue == [] {
        return None;
      }
      var n := queue[0].needed;
      if n > |book| {
        return None;
      }
      needed := Some(n);
    }

    /** The popping loop of `get_workers`: up to `n` workers from the back of the book, until one is stale
        or the book runs out. `lastValid` is the instant of the last worker taken. */
    method PopFresh(n: nat, current: Instant) returns (workers: seq<Sender>, lastValid: Instant, end: Ending)
      requires FreshFromTheBack(book, current)
      modifies this`book
      ensures Popped(old(book), workers) && |workers| <= |Fresh(old(book), current)|
      ensures workers != [] ==> lastValid == old(book)[|old(book)| - |workers|].seen
      ensures end.Enough? ==> |workers| == n && book == old(book)[..|old(book)| - n]
      ensures end.RanOut? ==> |workers| == |old(book)| < n && book == []
      ensures end.MetStale? ==> |workers| == |Fresh(old(book), current)| < n && |workers| < |old(book)|
    {
      ghost var whole := book;
      lastValid := current;
      workers := [];
      for i := 0 to n
        invariant i <= |Fresh(whole, current)| && book == whole[..|whole| - i]
        invariant Popped(whole, workers) && |workers| == i
        invariant i > 0 ==> lastValid == whole[|whole| - i].seen
      {
        if book == [] {
          assert |book| == |whole| - i;
          return workers, lastValid, RanOut;
        }
        var last := book[|book| - 1];
        book := book[..|book| - 1];
        if current - last.seen >= STALE_TIME {
          return workers, lastValid, MetStale;
        }
        lastValid := last.seen;
        workers := workers + [last.worker];
      }
      end := Enough;
    }

    /** Takes the newest `n` workers, if at least `n` are fresh. On the first stale one the book is emptied
        and the workers popped so far are put back, stamped with the instant of the oldest of them. Running
        out of entries leaves early, with the book empty and the metric untouched. */
    method GetWorkers(n: nat) returns (result: Option<seq<Sender>>)
      requires Distinct(book) && Sorted(book)
      modifies this`now, this`book, this`workersOnline
      ensures old(now) <= now
      ensures Scanned(old(book), n, now, result, book, old(workersOnline), workersOnline)
      ensures n <= |old(book)| ==> (result.Some? <==> n <= |Fresh(old(book), now)|)
    {
      var current := ReadClock();
      FreshOnes(book, current);
      var workers, lastValid, end := PopFresh(n, current);
      match end
      case Enough =>
        ScannedEnough(old(book), workers, current, workersOnline);
        workersOnline := workersOnline - n;
        result := Some(workers);
      case RanOut =>
        result := None;
      case MetStale =>
        Sweep(workers, lastValid, old(book), current);
        result := None;
    }

    /** Replaces the book by the workers popped so far, which are its fresh ones. */
    method Sweep(workers: seq<Sender>, lastValid: Instant, ghost whole: Book, ghost current: Instant)
      requires Distinct(whole) && Sorted(whole) && Popped(whole, workers) && |workers| == |Fresh(whole, current)|
      requires workers != [] ==> lastValid == whole[|whole| - |workers|].seen
      modifies this`book, this`workersOnline
      ensures book == Restamp(Fresh(whole, current)) && workersOnline == |book|
    {
      FreshIsSuffix(whole, current);
      PoppedNewest(whole, workers);
      assert whole[|whole| - |workers|..|whole|] == Fresh(whole, current);
      book := [];
      PutBack(workers, lastValid, Fresh(whole, current));
      workersOnline := |book|;
    }

    /** Re-inserting `workers`, last popped first, all with the same instant. */
    method PutBack(workers: seq<Sender>, t: Instant, ghost popped: Book)
      requires book == [] && workers == NewestFirst(popped) && Distinct(popped)
      requires popped != [] ==> t == popped[0].seen
      modifies this`book
      ensures book == Restamp(popped)
    {
      var k := |workers|;
      while k > 0
        invariant 0 <= k <= |workers|
        invariant book == Restamp(popped)[..|workers| - k]
      {
        k := k - 1;
        assert workers[k] == popped[|workers| - k - 1].worker;
        forall i | 0 <= i < |book| ensures book[i].worker != workers[k] {
          assert book[i].worker == popped[i].worker;
        }
        book := Insert(book, workers[k], t);
      }
    }

    /** Offering the book to the front job, which it is large enough for. */
    method OfferToFront(needed: nat) returns (started: bool)
      requires Ready(State()) && queue != [] && queue[0].needed == needed <= |book|
      modifies this`now, this`book, this`workersOnline, this`queue, this`cachedJobs, this`channel
      ensures old(now) <= now
      ensures State() == Scheduler.Drain(old(State()), now)
      ensures started ==> |queue| < |old(queue)| && book == [] && (queue != [] ==> queue[0].needed > 0)
    {
      ghost var before := State();
      var workers := GetWorkers(needed);
      DrainFollowsScan(before, now, workers, book, workersOnline);
      started := workers != None;
      if started {
        var front := queue[0];
        queue := queue[1..];
        cachedJobs := cachedJobs - 1;
        channel := channel + [Scheduler.Dispatch(workers.value, front.job)];
        assert queue != [] ==> queue[0] == before.queue[1];
      }
    }

    /** Offering workers to the queue until its front needs more than there are. The loop comes to one
        look at the queue: a second job is never started. */
    method EmptyQueue()
      requires Ready(State())
      modifies this`now, this`book, this`workersOnline, this`queue, this`cachedJobs, this`channel
      ensures old(now) <= now
      ensures State() == Scheduler.Drain(old(State()), now)
    {
      ghost var before := State();
      var started := false;
      while queue != []
        invariant before.now <= now
        invariant !started ==> State() == before
        invariant started ==> State() == Scheduler.Drain(before, now) && book == []
        invariant started && queue != [] ==> queue[0].needed > 0
        decreases |queue|
      {
        var needed := CheckAvailWorkers();
        if needed == None {
          break;
        }
        started := OfferToFront(needed.value);
        if !started {
          break;
        }
      }
    }

    method Register(worker: Sender) returns (seen: Instant)
      modifies this`now, this`book, this`workersOnline
      ensures old(now) <= seen && State() == Scheduler.Admit(old(State()), worker, seen)
    {
      seen := ReadClock();
      if !Contains(book, worker) {
        workersOnline := workersOnline + 1;
      }
      book := Insert(book, worker, seen);
    }

    method TrimBook()
      modifies this`book, this`workersOnline
      ensures State() == Scheduler.Trim(old(State()))
    {
      if |book| > MAX_WORKERS {
        book := book[1..];
        workersOnline := workersOnline - 1;
      }
    }

    /** A heartbeat: `Scheduler.OnHeartbeat` at three successive clock readings. */
    method HandleHeartbeat(worker: Sender) returns (ghost t0: Instant, ghost t1: Instant, ghost t2: Instant)
      requires Inv(State())
      modifies this
      ensures old(now) <= t0 <= t1 <= t2
      ensures State() == Scheduler.OnHeartbeat(old(State()), worker, t0, t1, t2)
      ensures Inv(State())
    {
      ghost var before := State();
      var early := IsTooEarly(worker);
      t0, t1, t2 := now, now, now;
      if !early {
        t1 := Register(worker);
        AdmitKeeps(before, worker, t1);
        EmptyQueue();
        t2 := now;
        TrimBook();
      }
      HeartbeatKeeps(before, worker, t0, t1, t2);
    }

    /** A job: queued when the book is too small or too stale, otherwise put on the channel at once. */
    method HandleNewJob(job: EventOnWire, signed: bool) returns (outcome: Outcome<bool>, ghost delay: nat)
      requires Inv(State())
      modifies this
      ensures match ValidateJob(job, whitelist, idHash, signed)
        case Panic => outcome == Panic && State() == old(State())
        case Return(result) =>
          outcome == Return(result.Ok?) && State() == Scheduler.OnNewJob(old(State()), job, Verdict(result), delay)
      ensures Inv(State())
    {
      ghost var before := State();
      delay := 0;
      var validation := ValidateJob(job, whitelist, idHash, signed);
      if validation.Panic? {
        return Panic, 0;
      }
      if validation.value.Err? {
        return Return(false), 0;
      }
      var n := validation.value.value;
      if |book| < n {
        queue := queue + [Scheduler.Queued(job, n)];
        cachedJobs := cachedJobs + 1;
      } else {
        var workers := GetWorkers(n);
        delay := now - before.now;
        if workers == None {
          queue := queue + [Scheduler.Queued(job, n)];
          cachedJobs := cachedJobs + 1;
        } else {
          channel := channel + [Scheduler.Dispatch(workers.value, job)];
        }
      }
      outcome := Return(true);
      NewJobKeeps(before, job, Some(n), delay);
    }

    /** One relay event: heartbeats and jobs are handled, every other kind is ignored. */
    method HandleEvent(ev: EventOnWire, signed: bool)
      returns (outcome: Outcome<bool>, ghost step: Option<Scheduler.Event>)
      requires Inv(State())
      modifies this
      ensures State() == if step == None then old(State()) else Scheduler.Step(old(State()), step.value)
      ensures Handles(ev, ValidateJob(ev, whitelist, idHash, signed), outcome, step)
      ensures Inv(State())
    {
      step, outcome := None, Return(true);
      if ev.kind == ALIVE {
        ghost var before := State();
        ghost var t0, t1, t2 := HandleHeartbeat(ev.sender);
        ghost var d0, d1, d2 := t0 - before.now, t1 - t0, t2 - t1;
        step := Some(Scheduler.Heartbeat(ev.sender, d0, d1, d2));
        Scheduler.HeartbeatStep(before, ev.sender, d0, d1, d2, t0, t1, t2);
      } else if ev.kind == NEW_JOB {
        ghost var delay;
        outcome, delay := HandleNewJob(ev, signed);
        step := match ValidateJob(ev, whitelist, idHash, signed)
          case Panic => None
          case Return(result) => Some(Scheduler.NewJob(ev, Verdict(result), delay));
      }
    }

    /** Records that `workers` were just given a job. */
    method RecordAssignment(workers: seq<Sender>) returns (t: Instant)
      modifies this`now, this`assignedSenders, this`assignedJobs
      ensures old(now) <= now == t
      ensures State() == Scheduler.Delivered(old(State()).(now := t), workers)
    {
      t := ReadClock();
      for i := 0 to |workers|
        invariant old(now) <= now == t && assignedJobs == old(assignedJobs)
        invariant assignedSenders == Scheduler.Record(old(assignedSenders), workers[..i], t)
      {
        assignedSenders := assignedSenders[workers[i] := t];
        assert workers[..i + 1] == workers[..i] + [workers[i]];
        Scheduler.RecordOneMore(old(assignedSenders), workers[..i], workers[i], t);
      }
      assert workers[..|workers|] == workers;
      assignedJobs := assignedJobs + 1;
    }

    /** Publishes the next job of the channel; when that fails a retry task takes over. */
    method PublishNext(published: bool) returns (ghost delay: nat)
      modifies this
      ensures State() == Scheduler.OnPublish(old(State()), published, delay)
    {
      delay := 0;
      if channel != [] {
        var d := channel[0];
        channel := channel[1..];
        if published {
          var t := RecordAssignment(d.workers);
          delay := t - old(now);
        } else {
          retrying := retrying + [Scheduler.Retry(d, 0)];
        }
      }
    }

    /** One round of a retry task: five failures and it gives the job up. */
    method RetryOnce(task: nat, published: bool) returns (ghost delay: nat)
      modifies this
      ensures State() == Scheduler.OnAttempt(old(State()), task, published, delay)
    {
      delay := 0;
      if task < |retrying| {
        var r := retrying[task];
        if published {
          retrying := retrying[..task] + retrying[task + 1..];
          var t := RecordAssignment(r.dispatch.workers);
          delay := t - old(now);
        } else if r.failed + 1 < Scheduler.MAX_RETRIES {
          retrying := retrying[task := Scheduler.Retry(r.dispatch, r.failed + 1)];
        } else {
          retrying := retrying[..task] + retrying[task + 1..];
        }
      }
    }
  }

  /** A validated job of any type needs one worker, so the order guarantee applies to every run of jobs
      that went through validation. Validation panics exactly on a whitelisted sender whose signatures cannot
      be checked, when the id is right. */
  lemma ValidJobsNeedOneWorker(job: EventOnWire, whitelist: set<Sender>, idHash: EventOnWire -> Bytes32, signed: bool)
    ensures ValidateJob(job, whitelist, idHash, signed) == Return(Ok(1)) <==>
      && job.sender in whitelist && job.id == idHash(job) && CanSign(job.sender) && signed
      && exists name :: name in ["pow", "classification"] && SingleTag("t", job.tags) == Ok(Some(name))
    ensures ValidateJob(job, whitelist, idHash, signed) == Panic <==>
      job.sender in whitelist && job.id == idHash(job) && !CanSign(job.sender)
    ensures ValidateJob(job, whitelist, idHash, signed) in [Return(Ok(1)), Return(Err), Panic]
  {
  }

  /** The runs the program has: every verdict on a job comes from validation. */
  ghost predicate Validated(events: seq<Scheduler.Event>, whitelist: set<Sender>, idHash: EventOnWire -> Bytes32) {
    forall i :: 0 <= i < |events| && events[i].NewJob? ==> IsVerdict(events[i], whitelist, idHash)
  }

  ghost predicate IsVerdict(ev: Scheduler.Event, whitelist: set<Sender>, idHash: EventOnWire -> Bytes32)
    requires ev.NewJob?
  {
    exists signed ::
      var validation := ValidateJob(ev.job, whitelist, idHash, signed);
      validation.Return? && ev.needed == Verdict(validation.value)
  }

  lemma ValidatedRunsAreUniform(events: seq<Scheduler.Event>, whitelist: set<Sender>, idHash: EventOnWire -> Bytes32)
    requires Validated(events, whitelist, idHash)
    ensures SchedulerJobs.Uniform(events, 1)
  {
    forall i | 0 <= i < |events| && events[i].NewJob? && events[i].needed.Some? ensures events[i].needed.value == 1 {
      assert IsVerdict(events[i], whitelist, idHash);
      ValidJobsNeedOneWorker(events[i].job, whitelist, idHash, true);
      ValidJobsNeedOneWorker(events[i].job, whitelist, idHash, false);
    }
  }

  /** First come, first served, for the runs the program has. And the ASSIGN event published for a job
      passes the aggregator's assignee check for exactly one sender: the one worker it was given to. */
  lemma ValidatedJobsAreServedInOrder(events: seq<Scheduler.Event>, whitelist: set<Sender>,
                                      idHash: EventOnWire -> Bytes32)
    requires Validated(events, whitelist, idHash)
    ensures var w := Scheduler.Run(events);
      Map(SchedulerJobs.DispatchJob, w.sent) + Map(SchedulerJobs.QueuedJob, w.state.queue)
        == Map(SchedulerJobs.QueuedJob, w.accepted)
    ensures var w := Scheduler.Run(events);
      forall i, x :: 0 <= i < |w.sent| ==>
        var d := w.sent[i];
        |d.workers| == 1 && AssigneeCheck([JobTag(d.job.id)] + WorkerTags(d.workers), x) == Return(x == d.workers[0])
  {
    ValidatedRunsAreUniform(events, whitelist, idHash);
    SchedulerJobs.FirstComeFirstServed(events, 1);
    var sent := Scheduler.Run(events).sent;
    forall i, x | 0 <= i < |sent|
      ensures AssigneeCheck([JobTag(sent[i].job.id)] + WorkerTags(sent[i].workers), x)
           == Return(x == sent[i].workers[0])
    {
      AssignmentNamesItsOnlyWorker(sent[i].workers, sent[i].job.id, x);
      assert sent[i].workers == [sent[i].workers[0]];
    }
  }
}
