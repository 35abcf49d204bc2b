/** The assigner and the aggregator together (nostr-client-plus/src/bin/assigner.rs, aggregator.rs): when the
    assignments the aggregator sees are those the assigner dispatched, finished jobs were done by the workers
    they were given to. */
module AssignerAndAggregator {
  import opened Common
  import opened Senders
  import opened Wire
  import JobProtocol
  import Scheduler
  import SchedulerJobs
  import SchedulerHistory
  import Assigner
  import opened Aggregator
  import AggregatorListener

  function AssignmentTags(d: Scheduler.Dispatch): seq<Tag> {
    [JobProtocol.JobTag(d.job.id)] + JobProtocol.WorkerTags(d.workers)
  }

  predicate Dispatched(sent: seq<Scheduler.Dispatch>, tags: seq<Tag>) {
    exists d :: 0 <= d < |sent| && tags == AssignmentTags(sent[d])
  }

  /** Every assignment seen carries the tags of some dispatch. */
  predicate FromDispatches(inputs: seq<Input>, sent: seq<Scheduler.Dispatch>) {
    forall i :: 0 <= i < |inputs| && inputs[i].AssignSeen? ==> Dispatched(sent, inputs[i].event.tags)
  }

  lemma DispatchedIsWhole(sent: seq<Scheduler.Dispatch>, tags: seq<Tag>)
    requires Dispatched(sent, tags)
    ensures !JobProtocol.CutOff(tags)
  {
    var d :| 0 <= d < |sent| && tags == AssignmentTags(sent[d]);
    var anyone := Ens(seq(32, _ => 0));
    JobProtocol.AssignmentNamesItsOnlyWorker(sent[d].workers, sent[d].job.id, anyone);
    JobProtocol.AssigneeCheckPanicsIff(tags, anyone);
  }

  lemma NamedWorkerWasGivenTheJob(sent: seq<Scheduler.Dispatch>, tags: seq<Tag>, worker: Sender)
    requires Dispatched(sent, tags) && NamesOnly(tags, worker)
    ensures exists d :: 0 <= d < |sent| && DispatchOf(sent[d], tags, [worker])
  {
    var d :| 0 <= d < |sent| && tags == AssignmentTags(sent[d]);
    JobProtocol.AssignmentNamesItsOnlyWorker(sent[d].workers, sent[d].job.id, worker);
    AssigneeIsNamed(tags, worker);
    assert DispatchOf(sent[d], tags, [worker]);
  }

  predicate DispatchOf(d: Scheduler.Dispatch, tags: seq<Tag>, workers: seq<Sender>) {
    tags == AssignmentTags(d) && d.workers == workers
  }

  /** The row's assignment is a dispatch to its one worker. */
  ghost predicate DoneByItsWorker(store: Store, sent: seq<Scheduler.Dispatch>, row: FinishedJob) {
    && row.assignEventId in store
    && exists d :: 0 <= d < |sent| && DispatchOf(sent[d], store[row.assignEventId].tags, row.workers)
  }

  /** Whatever the dispatches, with any numbers of workers: the listener never stops, every result is
      accounted for, and every finished job was dispatched to its one worker alone. */
  lemma FinishedJobsWereDispatched(config: Config, inputs: seq<Input>, tagsOf: string -> seq<Tag>,
                                   sent: seq<Scheduler.Dispatch>)
    requires FromDispatches(inputs, sent) && IdsDetermineTags(inputs, tagsOf)
    ensures var s := RunFrom(config, START, inputs);
      && s.listening && AggregatorListener.ResultsIn(inputs) == AggregatorListener.Accounted(s)
      && forall id :: id in s.finished ==> DoneByItsWorker(s.store, sent, s.finished[id])
  {
    var s := RunFrom(config, START, inputs);
    forall i | 0 <= i < |inputs| && inputs[i].AssignSeen? ensures !JobProtocol.CutOff(inputs[i].event.tags) {
      DispatchedIsWhole(sent, inputs[i].event.tags);
    }
    AggregatorListener.SoundAssignmentsKeepListening(config, inputs);
    AggregatorListener.ResultsWhileListening(config, inputs);
    FinishedJobsAreLegitimate(config, inputs, tagsOf);
    forall id | id in s.finished ensures DoneByItsWorker(s.store, sent, s.finished[id]) {
      RowWasDispatched(config, inputs, sent, s.classified, id, s.finished[id]);
    }
  }

  lemma RowWasDispatched(config: Config, inputs: seq<Input>, sent: seq<Scheduler.Dispatch>,
                         classified: Classified, id: Hash, row: FinishedJob)
    requires FromDispatches(inputs, sent) && RunFrom(config, START, inputs).listening
    requires RowOk(config, RunFrom(config, START, inputs).store, classified, id, row)
    ensures DoneByItsWorker(RunFrom(config, START, inputs).store, sent, row)
  {
    AggregatorListener.StoreHoldsLastAssignment(config, inputs, row.assignEventId);
    AggregatorListener.LastAssignmentHas(inputs, row.assignEventId, tags => Dispatched(sent, tags));
    NamedWorkerWasGivenTheJob(sent, RunFrom(config, START, inputs).store[row.assignEventId].tags, row.workers[0]);
    assert row.workers == [row.workers[0]];
  }

  // ---------------------------------------------------------------- the whole chain

  /** The fact that this worker was given a job by the `nth` dispatch. */
  ghost predicate GivenAs(log: seq<Scheduler.Fact>, i: int, worker: Sender, nth: nat) {
    0 <= i < |log| && log[i].Given? && log[i].worker == worker && log[i].nth == nth
  }

  ghost predicate Logged(log: seq<Scheduler.Fact>, worker: Sender, nth: nat) {
    exists i :: GivenAs(log, i, worker, nth)
  }

  /** Everyone in a dispatch is in the log as having been given its job. */
  ghost predicate SentIsLogged(sent: seq<Scheduler.Dispatch>, log: seq<Scheduler.Fact>) {
    forall d, k :: 0 <= d < |sent| && 0 <= k < |sent[d].workers| ==> Logged(log, sent[d].workers[k], d)
  }

  lemma LoggedGrows(log: seq<Scheduler.Fact>, facts: seq<Scheduler.Fact>, worker: Sender, nth: nat)
    requires Logged(log, worker, nth) || Logged(facts, worker, nth)
    ensures Logged(log + facts, worker, nth)
  {
    if Logged(log, worker, nth) {
      var i :| GivenAs(log, i, worker, nth);
      assert GivenAs(log + facts, i, worker, nth);
    } else {
      var i :| GivenAs(facts, i, worker, nth);
      assert GivenAs(log + facts, |log| + i, worker, nth);
    }
  }

  lemma {:induction false} GivenByLogs(ds: seq<Scheduler.Dispatch>, t: Instant, nth: nat, d: nat, k: nat)
    requires d < |ds| && k < |ds[d].workers|
    ensures Logged(Scheduler.GivenBy(ds, t, nth), ds[d].workers[k], nth + d)
  {
    var first := Scheduler.GivenTo(ds[0].workers, t, nth);
    if d == 0 {
      assert GivenAs(first, k, ds[0].workers[k], nth);
    } else {
      GivenByLogs(ds[1..], t, nth + 1, d - 1, k);
    }
    LoggedGrows(first, Scheduler.GivenBy(ds[1..], t, nth + 1), ds[d].workers[k], nth + d);
  }

  lemma MoreIsLogged(sent: seq<Scheduler.Dispatch>, log: seq<Scheduler.Fact>, more: seq<Scheduler.Dispatch>,
                     facts: seq<Scheduler.Fact>, t: Instant)
    requires SentIsLogged(sent, log)
    ensures SentIsLogged(sent + more, log + facts + Scheduler.GivenBy(more, t, |sent|))
  {
    var given := Scheduler.GivenBy(more, t, |sent|);
    forall d, k | 0 <= d < |sent + more| && 0 <= k < |(sent + more)[d].workers|
      ensures Logged(log + facts + given, (sent + more)[d].workers[k], d)
    {
      var worker := (sent + more)[d].workers[k];
      if d < |sent| {
        LoggedGrows(log, facts, worker, d);
      } else {
        GivenByLogs(more, t, |sent|, d - |sent|, k);
      }
      LoggedGrows(log + facts, given, worker, d);
    }
  }

  lemma StepIsLogged(w: Scheduler.World, ev: Scheduler.Event)
    requires SentIsLogged(w.sent, w.log)
    ensures var w' := Scheduler.WorldStep(w, ev); SentIsLogged(w'.sent, w'.log)
  {
    var w' := Scheduler.WorldStep(w, ev);
    var more := Scheduler.NewlySent(w.state, w'.state);
    match ev
    case Heartbeat(x, d0, d1, d2) =>
      var admission := [Scheduler.Admitted(x, Scheduler.Later(Scheduler.Later(w.state.now, d0), d1))];
      MoreIsLogged(w.sent, w.log, more, admission, w'.state.now);
    case NewJob(job, needed, _) =>
      MoreIsLogged(w.sent, w.log, more, [], w'.state.now);
      assert w.log + [] == w.log;
    case Publish(_, _) => QuietIsLogged(w.sent, w.log, w'.log);
    case Attempt(_, _, _) => QuietIsLogged(w.sent, w.log, w'.log);
  }

  lemma QuietIsLogged(sent: seq<Scheduler.Dispatch>, log: seq<Scheduler.Fact>, log': seq<Scheduler.Fact>)
    requires SentIsLogged(sent, log) && log <= log'
    ensures SentIsLogged(sent, log')
  {
    assert log' == log + log'[|log|..];
    MoreIsLogged(sent, log, [], log'[|log|..], 0);
    assert sent + [] == sent && log' + [] == log';
  }

  lemma {:induction false} RunIsLogged(events: seq<Scheduler.Event>)
    ensures SentIsLogged(Scheduler.Run(events).sent, Scheduler.Run(events).log)
  {
    if events != [] {
      RunIsLogged(events[..|events| - 1]);
      StepIsLogged(Scheduler.Run(events[..|events| - 1]), events[|events| - 1]);
    }
  }

  /** The `nth` dispatch gave the worker its job less than the stale time after a heartbeat of that worker,
      which was given nothing in between. */
  ghost predicate WasLive(log: seq<Scheduler.Fact>, worker: Sender, nth: nat) {
    exists i :: GivenAs(log, i, worker, nth) && SchedulerHistory.Live(log, i)
  }

  /** The row is that of the `nth` dispatch, of the `nth` accepted job to one worker, live at that moment. */
  ghost predicate EarnedBy(w: Scheduler.World, nth: int, tags: seq<Tag>, row: FinishedJob) {
    && 0 <= nth < |w.sent| && nth < |w.accepted| && w.sent[nth].job == w.accepted[nth].job
    && DispatchOf(w.sent[nth], tags, row.workers)
    && |row.workers| == 1 && WasLive(w.log, row.workers[0], nth)
  }

  ghost predicate Earned(w: Scheduler.World, store: Store, row: FinishedJob) {
    row.assignEventId in store && exists nth :: EarnedBy(w, nth, store[row.assignEventId].tags, row)
  }

  lemma DispatchIsAccepted(events: seq<Scheduler.Event>, whitelist: set<Sender>, idHash: EventOnWire -> Bytes32, d: nat)
    requires Assigner.Validated(events, whitelist, idHash) && d < |Scheduler.Run(events).sent|
    ensures var w := Scheduler.Run(events);
      |w.sent[d].workers| == 1 && d < |w.accepted| && w.sent[d].job == w.accepted[d].job
  {
    var w := Scheduler.Run(events);
    Assigner.ValidatedRunsAreUniform(events, whitelist, idHash);
    SchedulerJobs.FirstComeFirstServed(events, 1);
    SameJobAt(w.sent, w.state.queue, w.accepted, d);
  }

  lemma SameJobAt(sent: seq<Scheduler.Dispatch>, queue: seq<Scheduler.Queued>, accepted: seq<Scheduler.Queued>, d: nat)
    requires SchedulerJobs.OrderOf(sent, queue, accepted, 1) && d < |sent|
    ensures |sent[d].workers| == 1 && d < |accepted| && sent[d].job == accepted[d].job
  {
    var jobs := Map(SchedulerJobs.DispatchJob, sent);
    var all := jobs + Map(SchedulerJobs.QueuedJob, queue);
    assert |accepted| == |all| && jobs[d] == SchedulerJobs.DispatchJob(sent[d]);
    assert all[d] == jobs[d] && all[d] == SchedulerJobs.QueuedJob(accepted[d]);
  }

  lemma DispatchedWorkerWasLive(events: seq<Scheduler.Event>, nth: nat, k: nat)
    requires nth < |Scheduler.Run(events).sent| && k < |Scheduler.Run(events).sent[nth].workers|
    ensures WasLive(Scheduler.Run(events).log, Scheduler.Run(events).sent[nth].workers[k], nth)
  {
    RunIsLogged(events);
    SchedulerHistory.OnlyLiveRestedWorkersAreGivenJobs(events);
    LoggedWasLive(Scheduler.Run(events).log, Scheduler.Run(events).sent[nth].workers[k], nth);
  }

  lemma LoggedWasLive(log: seq<Scheduler.Fact>, worker: Sender, nth: nat)
    requires Logged(log, worker, nth) && SchedulerHistory.GivenOnlyToLiveWorkers(log)
    ensures WasLive(log, worker, nth)
  {
    var i :| GivenAs(log, i, worker, nth);
    assert SchedulerHistory.Live(log, i);
  }

  /** From heartbeat to finished job: for every run of the assigner on validated jobs and every run of the
      aggregator on its assignments, each finished job is that of one accepted job's only worker, who was
      live when given that very job. */
  lemma FinishedJobsAreEarned(config: Config, inputs: seq<Input>, tagsOf: string -> seq<Tag>,
                              events: seq<Scheduler.Event>, whitelist: set<Sender>,
                              idHash: EventOnWire -> Bytes32)
    requires Assigner.Validated(events, whitelist, idHash) && IdsDetermineTags(inputs, tagsOf)
    requires FromDispatches(inputs, Scheduler.Run(events).sent)
    ensures var s := RunFrom(config, START, inputs);
      forall id :: id in s.finished ==> Earned(Scheduler.Run(events), s.store, s.finished[id])
  {
    var s, w := RunFrom(config, START, inputs), Scheduler.Run(events);
    FinishedJobsWereDispatched(config, inputs, tagsOf, w.sent);
    forall id | id in s.finished ensures Earned(w, s.store, s.finished[id]) {
      var row := s.finished[id];
      assert DoneByItsWorker(s.store, w.sent, row);
      var d :| 0 <= d < |w.sent| && DispatchOf(w.sent[d], s.store[row.assignEventId].tags, row.workers);
      DispatchIsAccepted(events, whitelist, idHash, d);
      DispatchedWorkerWasLive(events, d, 0);
      assert EarnedBy(w, d, s.store[row.assignEventId].tags, row);
    }
  }
}
