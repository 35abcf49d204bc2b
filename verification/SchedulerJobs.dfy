/** What becomes of the jobs the assigner accepts, over every run: none is lost or duplicated, they
    start in arrival order, and one is given up only after six failed publications. */
module SchedulerJobs {
  import opened Common
  import Senders
  import opened Scheduler
  import SchedulerState

  function QueuedJob(q: Queued): Job { q.job }
  function DispatchJob(d: Dispatch): Job { d.job }
  function RetryJob(r: Retry): Job { r.dispatch.job }

  /** The jobs that are waiting, on the channel, being retried, published or given up. */
  ghost function Whereabouts(w: World): multiset<Job> {
    multiset(Map(QueuedJob, w.state.queue)) + multiset(Map(DispatchJob, w.state.channel))
    + multiset(Map(RetryJob, w.state.retrying)) + multiset(Map(DispatchJob, w.delivered))
    + multiset(Map(DispatchJob, w.dropped))
  }

  function FailuresOf(retrying: seq<Retry>): nat {
    if retrying == [] then 0 else 1 + retrying[0].failed + FailuresOf(retrying[1..])
  }

  ghost predicate Conserved(w: World) {
    multiset(Map(QueuedJob, w.accepted)) == Whereabouts(w)
  }

  /** The failures that a job took before a retry published it. */
  function WastedBy(w: World, ev: Event): nat {
    if ev.Attempt? && ev.ok && ev.task < |w.state.retrying| then 1 + w.state.retrying[ev.task].failed else 0
  }

  function Wasted(events: seq<Event>): nat {
    if events == [] then 0
    else Wasted(events[..|events| - 1]) + WastedBy(Run(events[..|events| - 1]), events[|events| - 1])
  }

  /** Of all failed publications, six belong to each job given up, the others to jobs being retried and, as
      `wasted`, to jobs that a retry published. */
  ghost predicate Accounted(w: World, wasted: nat) {
    && w.state.assignedJobs == |w.delivered|
    && w.failures == 6 * |w.dropped| + FailuresOf(w.state.retrying) + wasted
    && forall i :: 0 <= i < |w.state.retrying| ==> w.state.retrying[i].failed < 5
  }

  /** A heartbeat moves at most the front job, from the queue to the channel. */
  ghost predicate FrontStarts(s: State, s': State) {
    || (s'.queue == s.queue && s'.channel == s.channel)
    || (s.queue != [] && s'.queue == s.queue[1..] && |s'.channel| == |s.channel| + 1
        && s'.channel == s.channel + [s'.channel[|s.channel|]] && s'.channel[|s.channel|].job == s.queue[0].job
        && |s'.channel[|s.channel|].workers| == s.queue[0].needed)
  }

  lemma DrainJobs(s: State, t: Instant)
    ensures var s' := Drain(s, t);
      && FrontStarts(s, s') && s'.retrying == s.retrying && s'.assignedJobs == s.assignedJobs
  {
  }

  lemma HeartbeatJobs(s: State, x: Senders.Sender, t0: Instant, t1: Instant, t2: Instant)
    ensures var s' := OnHeartbeat(s, x, t0, t1, t2);
      && FrontStarts(s, s') && s'.retrying == s.retrying && s'.assignedJobs == s.assignedJobs
  {
    DrainJobs(Admit(s, x, t1), t2);
  }

  /** A validated job joins the queue or starts at once; an invalid one leaves no trace. */
  ghost predicate JobArrives(s: State, s': State, job: Job, needed: Option<nat>) {
    match needed
    case None => s'.queue == s.queue && s'.channel == s.channel
    case Some(n) =>
      || (s'.queue == s.queue + [Queued(job, n)] && s'.channel == s.channel)
      || (n <= |s.book| && s'.queue == s.queue && |s'.channel| == |s.channel| + 1
          && s'.channel == s.channel + [s'.channel[|s.channel|]] && s'.channel[|s.channel|].job == job
          && |s'.channel[|s.channel|].workers| == n)
  }

  lemma NewJobJobs(s: State, job: Job, needed: Option<nat>, delay: nat)
    ensures var s' := OnNewJob(s, job, needed, delay);
      && JobArrives(s, s', job, needed) && s'.retrying == s.retrying && s'.assignedJobs == s.assignedJobs
  {
  }

  lemma MapFirst<A, B>(f: A -> B, items: seq<A>)
    requires items != []
    ensures Map(f, items) == [f(items[0])] + Map(f, items[1..])
  {
  }

  lemma MultisetWithout<T>(items: seq<T>, i: nat)
    requires i < |items|
    ensures multiset(items) == multiset(items[..i] + items[i + 1..]) + multiset{items[i]}
  {
    assert items == items[..i] + [items[i]] + items[i + 1..];
  }

  lemma MapWithout<A, B>(f: A -> B, items: seq<A>, i: nat)
    requires i < |items|
    ensures multiset(Map(f, items)) == multiset(Map(f, items[..i] + items[i + 1..])) + multiset{f(items[i])}
  {
    MultisetWithout(Map(f, items), i);
    assert Map(f, items[..i] + items[i + 1..]) == Map(f, items)[..i] + Map(f, items)[i + 1..];
  }

  lemma {:induction false} FailuresLast(retrying: seq<Retry>, r: Retry)
    ensures FailuresOf(retrying + [r]) == FailuresOf(retrying) + 1 + r.failed
  {
    if retrying != [] {
      FailuresLast(retrying[1..], r);
      assert (retrying + [r])[1..] == retrying[1..] + [r];
    }
  }

  lemma {:induction false} FailuresWithout(retrying: seq<Retry>, i: nat)
    requires i < |retrying|
    ensures FailuresOf(retrying) == FailuresOf(retrying[..i] + retrying[i + 1..]) + 1 + retrying[i].failed
  {
    if i == 0 {
      assert retrying[..0] + retrying[1..] == retrying[1..];
    } else {
      FailuresWithout(retrying[1..], i - 1);
      var others := retrying[..i] + retrying[i + 1..];
      assert others[1..] == retrying[1..][..i - 1] + retrying[1..][i..];
    }
  }

  lemma {:induction false} FailuresUpdated(retrying: seq<Retry>, i: nat, r: Retry)
    requires i < |retrying|
    ensures FailuresOf(retrying[i := r]) == FailuresOf(retrying) - retrying[i].failed + r.failed
  {
    FailuresWithout(retrying, i);
    FailuresWithout(retrying[i := r], i);
    assert retrying[i := r][..i] + retrying[i := r][i + 1..] == retrying[..i] + retrying[i + 1..];
  }

  lemma HeartbeatConserves(w: World, x: Senders.Sender, d0: nat, d1: nat, d2: nat)
    requires Conserved(w)
    ensures Conserved(WorldStep(w, Heartbeat(x, d0, d1, d2)))
  {
    var s, s' := w.state, Step(w.state, Heartbeat(x, d0, d1, d2));
    HeartbeatJobs(s, x, Later(s.now, d0), Later(Later(s.now, d0), d1), Later(Later(Later(s.now, d0), d1), d2));
    if s'.channel != s.channel {
      MapFirst(QueuedJob, s.queue);
      MapLast(DispatchJob, s.channel, s'.channel[|s.channel|]);
    }
  }

  lemma NewJobConserves(w: World, job: Job, needed: Option<nat>, delay: nat)
    requires Conserved(w)
    ensures Conserved(WorldStep(w, NewJob(job, needed, delay)))
  {
    var s, s' := w.state, OnNewJob(w.state, job, needed, delay);
    NewJobJobs(s, job, needed, delay);
    if needed.Some? {
      MapLast(QueuedJob, w.accepted, Queued(job, needed.value));
      if s'.channel == s.channel {
        MapLast(QueuedJob, s.queue, Queued(job, needed.value));
      } else {
        MapLast(DispatchJob, s.channel, s'.channel[|s.channel|]);
      }
    }
  }

  lemma PublishConserves(w: World, ok: bool, delay: nat)
    requires Conserved(w)
    ensures Conserved(WorldStep(w, Publish(ok, delay)))
  {
    if w.state.channel != [] {
      var d := w.state.channel[0];
      MapFirst(DispatchJob, w.state.channel);
      if ok {
        MapLast(DispatchJob, w.delivered, d);
      } else {
        MapLast(RetryJob, w.state.retrying, Retry(d, 0));
      }
    }
  }

  /** Taking a retry off the list and its job to `place`. */
  lemma RetryEnds(retrying: seq<Retry>, task: nat, place: seq<Dispatch>)
    requires task < |retrying|
    ensures multiset(Map(RetryJob, retrying)) + multiset(Map(DispatchJob, place))
         == multiset(Map(RetryJob, retrying[..task] + retrying[task + 1..]))
            + multiset(Map(DispatchJob, place + [retrying[task].dispatch]))
  {
    MapWithout(RetryJob, retrying, task);
    MapLast(DispatchJob, place, retrying[task].dispatch);
  }

  lemma Regroup(a: multiset<Job>, r: multiset<Job>, p: multiset<Job>, r': multiset<Job>, p': multiset<Job>,
                b: multiset<Job>)
    requires r + p == r' + p'
    ensures a + r + p + b == a + r' + p' + b && a + r + b + p == a + r' + b + p'
  {
    assert a + r + p == a + (r + p) == a + (r' + p') == a + r' + p';
    assert a + r + b + p == a + (r + p) + b;
    assert a + r' + b + p' == a + (r' + p') + b;
  }

  lemma SuccessConserves(w: World, task: nat, delay: nat)
    requires Conserved(w) && task < |w.state.retrying|
    ensures Conserved(WorldStep(w, Attempt(task, true, delay)))
  {
    var s, d := w.state, w.state.retrying[task].dispatch;
    RetryEnds(s.retrying, task, w.delivered);
    Regroup(multiset(Map(QueuedJob, s.queue)) + multiset(Map(DispatchJob, s.channel)),
            multiset(Map(RetryJob, s.retrying)), multiset(Map(DispatchJob, w.delivered)),
            multiset(Map(RetryJob, s.retrying[..task] + s.retrying[task + 1..])),
            multiset(Map(DispatchJob, w.delivered + [d])), multiset(Map(DispatchJob, w.dropped)));
  }

  lemma GivingUpConserves(w: World, task: nat, delay: nat)
    requires Conserved(w) && task < |w.state.retrying| && w.state.retrying[task].failed + 1 >= MAX_RETRIES
    ensures Conserved(WorldStep(w, Attempt(task, false, delay)))
  {
    var s, d := w.state, w.state.retrying[task].dispatch;
    RetryEnds(s.retrying, task, w.dropped);
    Regroup(multiset(Map(QueuedJob, s.queue)) + multiset(Map(DispatchJob, s.channel)),
            multiset(Map(RetryJob, s.retrying)), multiset(Map(DispatchJob, w.dropped)),
            multiset(Map(RetryJob, s.retrying[..task] + s.retrying[task + 1..])),
            multiset(Map(DispatchJob, w.dropped + [d])), multiset(Map(DispatchJob, w.delivered)));
  }

  lemma MapUpdated<A, B>(f: A -> B, items: seq<A>, i: nat, x: A)
    requires i < |items| && f(x) == f(items[i])
    ensures Map(f, items[i := x]) == Map(f, items)
  {
  }

  lemma FailureConserves(w: World, task: nat, delay: nat)
    requires Conserved(w) && task < |w.state.retrying| && w.state.retrying[task].failed + 1 < MAX_RETRIES
    ensures Conserved(WorldStep(w, Attempt(task, false, delay)))
  {
    var w' := WorldStep(w, Attempt(task, false, delay));
    var r := w.state.retrying[task];
    MapUpdated(RetryJob, w.state.retrying, task, Retry(r.dispatch, r.failed + 1));
    assert Map(RetryJob, w'.state.retrying) == Map(RetryJob, w.state.retrying);
    assert Whereabouts(w') == Whereabouts(w);
  }

  lemma AttemptConserves(w: World, task: nat, ok: bool, delay: nat)
    requires Conserved(w)
    ensures Conserved(WorldStep(w, Attempt(task, ok, delay)))
  {
    if task < |w.state.retrying| {
      if ok {
        SuccessConserves(w, task, delay);
      } else if w.state.retrying[task].failed + 1 < MAX_RETRIES {
        FailureConserves(w, task, delay);
      } else {
        GivingUpConserves(w, task, delay);
      }
    }
  }

  lemma StepConserves(w: World, ev: Event)
    requires Conserved(w)
    ensures Conserved(WorldStep(w, ev))
  {
    match ev
    case Heartbeat(x, d0, d1, d2) => HeartbeatConserves(w, x, d0, d1, d2);
    case NewJob(job, needed, delay) => NewJobConserves(w, job, needed, delay);
    case Publish(ok, delay) => PublishConserves(w, ok, delay);
    case Attempt(task, ok, delay) => AttemptConserves(w, task, ok, delay);
  }

  lemma AttemptAccounts(w: World, task: nat, ok: bool, delay: nat, wasted: nat)
    requires Accounted(w, wasted)
    ensures Accounted(WorldStep(w, Attempt(task, ok, delay)), wasted + WastedBy(w, Attempt(task, ok, delay)))
  {
    var retrying := w.state.retrying;
    if task < |retrying| {
      var r := retrying[task];
      if !ok && r.failed + 1 < MAX_RETRIES {
        FailuresUpdated(retrying, task, Retry(r.dispatch, r.failed + 1));
      } else {
        FailuresWithout(retrying, task);
      }
    }
  }

  lemma StepAccounts(w: World, ev: Event, wasted: nat)
    requires Accounted(w, wasted)
    ensures Accounted(WorldStep(w, ev), wasted + WastedBy(w, ev))
  {
    var s := w.state;
    match ev
    case Heartbeat(x, d0, d1, d2) =>
      HeartbeatJobs(s, x, Later(s.now, d0), Later(Later(s.now, d0), d1), Later(Later(Later(s.now, d0), d1), d2));
    case NewJob(job, needed, delay) => NewJobJobs(s, job, needed, delay);
    case Publish(ok, delay) =>
      if s.channel != [] { FailuresLast(s.retrying, Retry(s.channel[0], 0)); }
    case Attempt(task, ok, delay) => AttemptAccounts(w, task, ok, delay, wasted);
  }

  /** Over every run each accepted job is in exactly one place, the metric of assigned jobs counts the
      published ones, and the failed publications are exactly six for each job given up, those of the jobs
      being retried, and those that retries made good. */
  lemma {:induction false} JobsAreConserved(events: seq<Event>)
    ensures Conserved(Run(events)) && Accounted(Run(events), Wasted(events))
  {
    if events != [] {
      var before, last := events[..|events| - 1], events[|events| - 1];
      JobsAreConserved(before);
      StepConserves(Run(before), last);
      StepAccounts(Run(before), last, Wasted(before));
    }
  }

  // ---------------------------------------------------------------- order

  predicate IsTail(tail: seq<Dispatch>, all: seq<Dispatch>) {
    |tail| <= |all| && tail == all[|all| - |tail|..]
  }

  lemma MoreOnChannel(s: State, s': State, sent: seq<Dispatch>)
    requires IsTail(s.channel, sent)
    requires s'.channel == s.channel ||
      (|s'.channel| == |s.channel| + 1 && s'.channel == s.channel + [s'.channel[|s.channel|]])
    ensures IsTail(s'.channel, sent + NewlySent(s, s'))
  {
  }

  lemma StepKeepsChannel(w: World, ev: Event)
    requires IsTail(w.state.channel, w.sent)
    ensures var w' := WorldStep(w, ev); IsTail(w'.state.channel, w'.sent)
  {
    var s, s' := w.state, Step(w.state, ev);
    match ev
    case Heartbeat(x, d0, d1, d2) =>
      HeartbeatJobs(s, x, Later(s.now, d0), Later(Later(s.now, d0), d1), Later(Later(Later(s.now, d0), d1), d2));
      MoreOnChannel(s, s', w.sent);
    case NewJob(job, needed, delay) =>
      NewJobJobs(s, job, needed, delay);
      if needed.Some? { MoreOnChannel(s, s', w.sent); }
    case Publish(_, _) =>
    case Attempt(_, _, _) =>
  }

  /** Over every run jobs are published, or handed to a retry, in the order in which they were started: those
      on the channel are always the ones started last. */
  lemma {:induction false} ChannelIsInOrder(events: seq<Event>)
    ensures IsTail(Run(events).state.channel, Run(events).sent)
  {
    if events != [] {
      ChannelIsInOrder(events[..|events| - 1]);
      StepKeepsChannel(Run(events[..|events| - 1]), events[|events| - 1]);
    }
  }

  /** Every job of the run needs `n` workers. */
  ghost predicate Uniform(events: seq<Event>, n: nat) {
    forall i :: 0 <= i < |events| && events[i].NewJob? && events[i].needed.Some? ==> events[i].needed.value == n
  }

  ghost predicate InOrder(w: World, n: nat) {
    OrderOf(w.sent, w.state.queue, w.accepted, n)
  }

  ghost predicate OrderOf(sent: seq<Dispatch>, queue: seq<Queued>, accepted: seq<Queued>, n: nat) {
    && Map(DispatchJob, sent) + Map(QueuedJob, queue) == Map(QueuedJob, accepted)
    && (forall i :: 0 <= i < |queue| ==> queue[i].needed == n)
    && (forall i :: 0 <= i < |sent| ==> |sent[i].workers| == n)
  }

  lemma FrontKeepsOrder(s: State, s': State, sent: seq<Dispatch>, accepted: seq<Queued>, n: nat)
    requires FrontStarts(s, s') && OrderOf(sent, s.queue, accepted, n)
    ensures OrderOf(sent + NewlySent(s, s'), s'.queue, accepted, n)
  {
    if s'.channel != s.channel {
      MapFirst(QueuedJob, s.queue);
      MapLast(DispatchJob, sent, s'.channel[|s.channel|]);
      assert NewlySent(s, s') == [s'.channel[|s.channel|]];
    } else {
      assert sent + NewlySent(s, s') == sent;
    }
  }

  lemma ArrivalKeepsOrder(s: State, s': State, job: Job, sent: seq<Dispatch>, accepted: seq<Queued>, n: nat)
    requires JobArrives(s, s', job, Some(n)) && SchedulerState.WaitInv(s) && OrderOf(sent, s.queue, accepted, n)
    ensures OrderOf(sent + NewlySent(s, s'), s'.queue, accepted + [Queued(job, n)], n)
  {
    MapLast(QueuedJob, accepted, Queued(job, n));
    if s'.channel == s.channel {
      MapLast(QueuedJob, s.queue, Queued(job, n));
      assert sent + NewlySent(s, s') == sent;
    } else {
      assert s.queue == [];
      MapLast(DispatchJob, sent, s'.channel[|s.channel|]);
      assert NewlySent(s, s') == [s'.channel[|s.channel|]];
    }
  }

  lemma StepKeepsOrder(w: World, ev: Event, n: nat)
    requires InOrder(w, n) && SchedulerState.WaitInv(w.state)
    requires ev.NewJob? && ev.needed.Some? ==> ev.needed.value == n
    ensures InOrder(WorldStep(w, ev), n)
  {
    var s, s' := w.state, Step(w.state, ev);
    match ev
    case Heartbeat(x, d0, d1, d2) =>
      HeartbeatJobs(s, x, Later(s.now, d0), Later(Later(s.now, d0), d1), Later(Later(Later(s.now, d0), d1), d2));
      FrontKeepsOrder(s, s', w.sent, w.accepted, n);
    case NewJob(job, needed, delay) =>
      NewJobJobs(s, job, needed, delay);
      if needed.Some? { ArrivalKeepsOrder(s, s', job, w.sent, w.accepted, n); }
    case Publish(_, _) =>
    case Attempt(_, _, _) =>
  }

  /** First come, first served: when all jobs need equally many workers, the jobs ever started followed
      by the jobs still queued are the accepted jobs in arrival order, whatever heartbeats, sweeps,
      trims and publication failures happened in between. Each was started with `n` workers. */
  lemma {:induction false} FirstComeFirstServed(events: seq<Event>, n: nat)
    requires Uniform(events, n)
    ensures InOrder(Run(events), n)
  {
    if events != [] {
      var before, last := events[..|events| - 1], events[|events| - 1];
      FirstComeFirstServed(before, n);
      SchedulerState.EveryRunKeepsInv(before);
      StepKeepsOrder(Run(before), last, n);
    }
  }
}
