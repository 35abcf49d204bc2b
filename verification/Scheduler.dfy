/** The assigner as a transition system (nostr-client-plus/src/bin/assigner.rs): what each event does
    to the state, and the histories the guarantees in SchedulerJobs and SchedulerHistory speak about. */
module Scheduler {
  import opened Common
  import opened Senders
  import Wire
  import opened WorkersBook

  const MAX_RETRIES: nat := 5

  type Job = Wire.EventOnWire
  datatype Queued = Queued(job: Job, needed: nat)
  datatype Dispatch = Dispatch(workers: seq<Sender>, job: Job)
  /** A task that keeps publishing a dispatch whose first publication failed. */
  datatype Retry = Retry(dispatch: Dispatch, failed: nat)

  datatype State = State(
    now: Instant,
    book: Book,                      // available workers
    queue: seq<Queued>,              // jobs waiting for workers
    assignedAt: map<Sender, Instant>,  // last time each sender was given a job
    channel: seq<Dispatch>,          // jobs on their way to be published
    retrying: seq<Retry>,
    workersOnline: int, cachedJobs: int, assignedJobs: int)  // the published metrics

  /** What can happen. Delays separate the successive clock readings an event takes. */
  datatype Event =
    | Heartbeat(worker: Sender, d0: nat, d1: nat, d2: nat)
    | NewJob(job: Job, needed: Option<nat>, delay: nat)  // `needed` is the verdict of validation
    | Publish(ok: bool, delay: nat)
    | Attempt(task: nat, ok: bool, delay: nat)

  const INITIAL := State(0, [], [], map[], [], [], 0, 0, 0)

  function Later(t: Instant, delay: nat): (later: Instant)
    ensures t <= later
  {
    t + delay
  }

  predicate TooEarly(assignedAt: map<Sender, Instant>, w: Sender, now: Instant) {
    w in assignedAt && now - assignedAt[w] < COOL_DOWN_PERIOD
  }

  function Admit(s: State, w: Sender, t: Instant): State {
    s.(now := t, book := Insert(s.book, w, t),
       workersOnline := if Contains(s.book, w) then s.workersOnline else s.workersOnline + 1)
  }

  /** Offering the book to the job at the front of the queue, once. */
  function Drain(s: State, t: Instant): State {
    if s.queue == [] || |s.book| < s.queue[0].needed then s.(now := t)
    else
      match ScanFor(s.book, s.queue[0].needed, t)
      case Picked(workers, rest) =>
        s.(now := t, book := rest, workersOnline := s.workersOnline - s.queue[0].needed,
           queue := s.queue[1..], cachedJobs := s.cachedJobs - 1,
           channel := s.channel + [Dispatch(workers, s.queue[0].job)])
      case Swept(rest) => s.(now := t, book := rest, workersOnline := |rest|)
      case Exhausted => s.(now := t, book := [])
  }

  function Trim(s: State): State {
    if |s.book| > MAX_WORKERS then s.(book := s.book[1..], workersOnline := s.workersOnline - 1) else s
  }

  /** A heartbeat: the cool-down check reads the clock at `t0`, admission at `t1`, the scan at `t2`. */
  function OnHeartbeat(s: State, w: Sender, t0: Instant, t1: Instant, t2: Instant): State {
    if TooEarly(s.assignedAt, w, t0) then s.(now := t0) else Trim(Drain(Admit(s, w, t1), t2))
  }

  function Enqueue(s: State, job: Job, needed: nat): State {
    s.(queue := s.queue + [Queued(job, needed)], cachedJobs := s.cachedJobs + 1)
  }

  function OnNewJob(s: State, job: Job, needed: Option<nat>, delay: nat): State {
    var t := Later(s.now, delay);
    match needed
    case None => s.(now := t)
    case Some(n) =>
      if |s.book| < n then Enqueue(s, job, n).(now := t)
      else
        match ScanFor(s.book, n, t)
        case Picked(workers, rest) =>
          s.(now := t, book := rest, workersOnline := s.workersOnline - n,
             channel := s.channel + [Dispatch(workers, job)])
        case Swept(rest) => Enqueue(s, job, n).(now := t, book := rest, workersOnline := |rest|)
        case Exhausted => Enqueue(s, job, n).(now := t, book := [])
  }

  /** Everyone in `workers` was given a job at `t`. */
  function Record(assignedAt: map<Sender, Instant>, workers: seq<Sender>, t: Instant): map<Sender, Instant> {
    map w | w in assignedAt.Keys + (set x | x in workers) :: if w in workers then t else assignedAt[w]
  }

  lemma RecordOneMore(assignedAt: map<Sender, Instant>, workers: seq<Sender>, w: Sender, t: Instant)
    ensures Record(assignedAt, workers + [w], t) == Record(assignedAt, workers, t)[w := t]
  {
  }

  function Delivered(s: State, workers: seq<Sender>): State {
    s.(assignedAt := Record(s.assignedAt, workers, s.now), assignedJobs := s.assignedJobs + 1)
  }

  function OnPublish(s: State, ok: bool, delay: nat): State {
    var s := s.(now := Later(s.now, delay));
    if s.channel == [] then s
    else
      var d, s := s.channel[0], s.(channel := s.channel[1..]);
      if ok then Delivered(s, d.workers) else s.(retrying := s.retrying + [Retry(d, 0)])
  }

  function OnAttempt(s: State, task: nat, ok: bool, delay: nat): State {
    var s := s.(now := Later(s.now, delay));
    if |s.retrying| <= task then s
    else
      var r, others := s.retrying[task], s.retrying[..task] + s.retrying[task + 1..];
      if ok then Delivered(s.(retrying := others), r.dispatch.workers)
      else if r.failed + 1 < MAX_RETRIES then s.(retrying := s.retrying[task := Retry(r.dispatch, r.failed + 1)])
      else s.(retrying := others)
  }

  function Step(s: State, ev: Event): State {
    match ev
    case Heartbeat(w, d0, d1, d2) =>
      var t0 := Later(s.now, d0);
      var t1 := Later(t0, d1);
      OnHeartbeat(s, w, t0, t1, Later(t1, d2))
    case NewJob(job, needed, delay) => OnNewJob(s, job, needed, delay)
    case Publish(ok, delay) => OnPublish(s, ok, delay)
    case Attempt(task, ok, delay) => OnAttempt(s, task, ok, delay)
  }

  /** The step of a heartbeat whose clock readings were `t0`, `t1` and `t2`. */
  lemma HeartbeatStep(s: State, w: Sender, d0: nat, d1: nat, d2: nat, t0: Instant, t1: Instant, t2: Instant)
    requires t0 == Later(s.now, d0) && t1 == Later(t0, d1) && t2 == Later(t1, d2)
    ensures Step(s, Heartbeat(w, d0, d1, d2)) == OnHeartbeat(s, w, t0, t1, t2)
  {
  }

  // ---------------------------------------------------------------- histories

  /** Who was admitted to the book, given a job, or recorded as having been given one, and when. */
  datatype Fact =
    | Admitted(worker: Sender, at: Instant)
    | Given(worker: Sender, at: Instant, nth: nat)  // the `nth` dispatch ever put on the channel
    | Recorded(worker: Sender, at: Instant)

  datatype World = World(
    state: State,
    accepted: seq<Queued>,    // jobs that passed validation, in arrival order
    sent: seq<Dispatch>,      // everything ever put on the channel
    delivered: seq<Dispatch>, // published, at once or by a retry
    dropped: seq<Dispatch>,   // given up
    failures: nat,            // publications that failed
    log: seq<Fact>)

  const START := World(INITIAL, [], [], [], [], 0, [])

  function GivenTo(workers: seq<Sender>, t: Instant, nth: nat): (facts: seq<Fact>)
    ensures |facts| == |workers|
  {
    seq(|workers|, i requires 0 <= i < |workers| => Given(workers[i], t, nth))
  }

  function RecordedFor(workers: seq<Sender>, t: Instant): (facts: seq<Fact>)
    ensures |facts| == |workers|
  {
    seq(|workers|, i requires 0 <= i < |workers| => Recorded(workers[i], t))
  }

  /** What `after` put on the channel that `before` had not. */
  function NewlySent(before: State, after: State): seq<Dispatch> {
    if |before.channel| < |after.channel| then after.channel[|before.channel|..] else []
  }

  function GivenBy(ds: seq<Dispatch>, t: Instant, nth: nat): seq<Fact> {
    if ds == [] then [] else GivenTo(ds[0].workers, t, nth) + GivenBy(ds[1..], t, nth + 1)
  }

  function WorldStep(w: World, ev: Event): World {
    var s, s' := w.state, Step(w.state, ev);
    match ev
    case Heartbeat(x, d0, d1, d2) =>
      if TooEarly(s.assignedAt, x, Later(s.now, d0)) then w.(state := s')
      else
        w.(state := s', sent := w.sent + NewlySent(s, s'),
           log := w.log + [Admitted(x, Later(Later(s.now, d0), d1))] + GivenBy(NewlySent(s, s'), s'.now, |w.sent|))
    case NewJob(job, None, _) => w.(state := s')
    case NewJob(job, Some(n), _) =>
      w.(state := s', accepted := w.accepted + [Queued(job, n)], sent := w.sent + NewlySent(s, s'),
         log := w.log + GivenBy(NewlySent(s, s'), s'.now, |w.sent|))
    case Publish(ok, _) =>
      if s.channel == [] then w.(state := s')
      else if ok then
        w.(state := s', delivered := w.delivered + [s.channel[0]],
           log := w.log + RecordedFor(s.channel[0].workers, s'.now))
      else w.(state := s', failures := w.failures + 1)
    case Attempt(task, ok, _) =>
      if |s.retrying| <= task then w.(state := s')
      else
        var r := s.retrying[task];
        if ok then
          w.(state := s', delivered := w.delivered + [r.dispatch],
             log := w.log + RecordedFor(r.dispatch.workers, s'.now))
        else
          w.(state := s', failures := w.failures + 1,
             dropped := if r.failed + 1 < MAX_RETRIES then w.dropped else w.dropped + [r.dispatch])
  }

  function Run(events: seq<Event>): World {
    if events == [] then START
    else WorldStep(Run(events[..|events| - 1]), events[|events| - 1])
  }
}
