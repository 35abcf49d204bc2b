/** The two collections of the aggregator (nostr-client-plus/src/bin/aggregator.rs). A classification is
    written to both, one after the other: when the collections part, and what becomes of such an id. */
module AggregatorCollections {
  import opened Common
  import opened Senders
  import Wire
  import JobProtocol
  import opened Aggregator
  import Decimal

  /** Every classifier row has its finished classification. */
  ghost predicate Paired(s: State) {
    forall id :: id in s.classified ==> id in s.finished && s.finished[id].jobType == 1
  }

  /** A classifier row whose id has no finished classification, though it may have another finished job. */
  ghost predicate Orphaned(s: State, id: Hash, result: ClassifierResult) {
    && id in s.classified && s.classified[id] == result
    && (id in s.finished ==> s.finished[id].jobType != 1)
  }

  lemma UnpairedMeansOrphan(s: State)
    ensures !Paired(s) <==> exists id :: id in s.classified && Orphaned(s, id, s.classified[id])
  {
  }

  /** The next message is a classification whose first write succeeds on a new id, and whose second fails:
      because the write does, or because another job with that id is already finished. */
  predicate Parts(config: Config, s: State, c: bool, f: bool) {
    s.pipe != [] &&
    var p := s.pipe[0].payload;
    var id := p.header.rawDataId;
    && p.version == config.supportedVersion && p.header.jobType == 1
    && p.output.tags.Some? && p.output.tags.value != []
    && c && id !in s.classified && (if id in s.finished then s.finished[id].jobType != 1 else !f)
  }

  /** Exactly that parts the two collections. */
  lemma OrphanIff(config: Config, s: State, c: bool, f: bool)
    requires Paired(s)
    ensures !Paired(OnAggregate(config, s, c, f)) <==> Parts(config, s, c, f)
  {
    if Parts(config, s, c, f) {
      assert s.pipe[0].payload.header.rawDataId in OnAggregate(config, s, c, f).classified;
    }
  }

  lemma StepKeepsOrphan(config: Config, s: State, input: Input, id: Hash, result: ClassifierResult)
    requires Orphaned(s, id, result)
    ensures Orphaned(Step(config, s, input), id, result)
  {
  }

  /** An id whose classification stopped half-way can never be finished as one, whatever arrives. */
  lemma {:induction false} OrphansStayUnclassified(config: Config, s: State, inputs: seq<Input>,
                                                   id: Hash, result: ClassifierResult)
    requires Orphaned(s, id, result)
    ensures Orphaned(RunFrom(config, s, inputs), id, result)
  {
    if inputs != [] {
      OrphansStayUnclassified(config, s, inputs[..|inputs| - 1], id, result);
      StepKeepsOrphan(config, RunFrom(config, s, inputs[..|inputs| - 1]), inputs[|inputs| - 1], id, result);
    }
  }

  /** The input at `k` parts the collections. */
  predicate PartsAt(config: Config, inputs: seq<Input>, k: nat)
    requires k < |inputs|
  {
    inputs[k].Aggregate? &&
    Parts(config, RunFrom(config, START, inputs[..k]), inputs[k].classifierWrite, inputs[k].finishedWrite)
  }

  lemma PartsEarlier(config: Config, inputs: seq<Input>, k: nat)
    requires k < |inputs| - 1
    ensures PartsAt(config, inputs, k) <==> PartsAt(config, inputs[..|inputs| - 1], k)
  {
    assert inputs[..|inputs| - 1][..k] == inputs[..k];
  }

  lemma StepPairs(config: Config, s: State, input: Input)
    requires Paired(s)
    ensures !Paired(Step(config, s, input)) <==>
      input.Aggregate? && Parts(config, s, input.classifierWrite, input.finishedWrite)
  {
    if input.Aggregate? { OrphanIff(config, s, input.classifierWrite, input.finishedWrite); }
  }

  /** Over every run the collections have parted if and only if some input parted them. */
  lemma {:induction false} CollectionsPartIff(config: Config, inputs: seq<Input>)
    ensures !Paired(RunFrom(config, START, inputs)) <==> exists k :: 0 <= k < |inputs| && PartsAt(config, inputs, k)
  {
    if inputs != [] {
      var init, last := inputs[..|inputs| - 1], inputs[|inputs| - 1];
      var s := RunFrom(config, START, init);
      CollectionsPartIff(config, init);
      forall k | 0 <= k < |init| ensures PartsAt(config, inputs, k) <==> PartsAt(config, init, k) {
        PartsEarlier(config, inputs, k);
      }
      if Paired(s) {
        StepPairs(config, s, last);
        assert PartsAt(config, inputs, |init|) <==> !Paired(Step(config, s, last));
      } else {
        UnpairedMeansOrphan(s);
        var id :| id in s.classified && Orphaned(s, id, s.classified[id]);
        StepKeepsOrphan(config, s, last, id, s.classified[id]);
      }
    }
  }

  // ---------------------------------------------------------------- two runs

  function AssignmentOf(id: Bytes32, worker: Sender, job: Bytes32): Wire.EventOnWire {
    var tags := [JobProtocol.JobTag(job)] + JobProtocol.WorkerTags([worker]);
    Wire.EventOnWire(id, worker, 0, JobProtocol.ASSIGN, tags, "", [])
  }

  function ResultFor(id: Bytes32, worker: Sender): Wire.EventOnWire {
    Wire.EventOnWire(id, worker, 0, JobProtocol.RESULT, [["e", HexEncode(id)]], "", [])
  }

  function PayloadOf(config: Config, jobType: uint16, rawDataId: Hash): ResultPayload {
    ResultPayload(Header(jobType, rawDataId, 0), Output("", Some([7])), config.supportedVersion, "key")
  }

  lemma RunMore(config: Config, s: State, inputs: seq<Input>, input: Input)
    ensures RunFrom(config, s, inputs + [input]) == Step(config, RunFrom(config, s, inputs), input)
  {
    assert (inputs + [input])[..|inputs|] == inputs;
  }

  /** The worker's result for its assignment goes to the second task. */
  lemma ResultIsAccepted(config: Config, s: State, id: Bytes32, worker: Sender, job: Bytes32, payload: ResultPayload)
    requires s.listening && HexEncode(id) in s.store
    requires s.store[HexEncode(id)] == Stored(AssignmentOf(id, worker, job))
    requires payload.header.jobType == 0 ==> PowPasses(config, payload)
    ensures Step(config, s, ResultSeen(ResultFor(id, worker), Some(payload), true, true))
         == s.(pipe := s.pipe + [Message(worker, payload, HexEncode(id))])
  {
    JobProtocol.OnlyTag("e", HexEncode(id));
    JobProtocol.AssignmentNamesItsOnlyWorker([worker], job, worker);
  }

  /** The state after a worker's assignment and its result. */
  function Begun(id: Bytes32, worker: Sender, job: Bytes32, payload: ResultPayload): State {
    START.(store := map[HexEncode(id) := Stored(AssignmentOf(id, worker, job))],
           pipe := [Message(worker, payload, HexEncode(id))])
  }

  function BeginRun(id: Bytes32, worker: Sender, job: Bytes32, payload: ResultPayload): seq<Input> {
    [AssignSeen(AssignmentOf(id, worker, job), true)] + [ResultSeen(ResultFor(id, worker), Some(payload), true, true)]
  }

  lemma AssignmentIsStored(config: Config, id: Bytes32, worker: Sender, job: Bytes32)
    ensures var assignment := AssignmentOf(id, worker, job);
      RunFrom(config, START, [AssignSeen(assignment, true)])
        == START.(store := map[HexEncode(id) := Stored(assignment)])
  {
    var first := AssignSeen(AssignmentOf(id, worker, job), true);
    assert [first][..0] == [];
  }

  lemma RunBegins(config: Config, id: Bytes32, worker: Sender, job: Bytes32, payload: ResultPayload)
    requires payload.header.jobType == 0 ==> PowPasses(config, payload)
    ensures RunFrom(config, START, BeginRun(id, worker, job, payload)) == Begun(id, worker, job, payload)
  {
    var assignment := AssignmentOf(id, worker, job);
    AssignmentIsStored(config, id, worker, job);
    var result := ResultSeen(ResultFor(id, worker), Some(payload), true, true);
    RunMore(config, START, [AssignSeen(assignment, true)], result);
    ResultIsAccepted(config, START.(store := map[HexEncode(id) := Stored(assignment)]), id, worker, job, payload);
  }

  /** One way for the collections to part: the second write fails. */
  lemma SecondWriteFails(config: Config, id: Bytes32, worker: Sender, job: Bytes32, raw: Hash)
    ensures var begun := BeginRun(id, worker, job, PayloadOf(config, 1, raw));
      var s := RunFrom(config, START, begun + [Aggregate(true, false)]);
      Orphaned(s, raw, ClassifierResult("key", Decimal.Print(7))) && raw !in s.finished && s.failedJobs == 1
  {
    RunBegins(config, id, worker, job, PayloadOf(config, 1, raw));
    RunMore(config, START, BeginRun(id, worker, job, PayloadOf(config, 1, raw)), Aggregate(true, false));
  }

  /** The other: a proof of work with the same id is already finished, and all writes work. */
  lemma AnotherJobWasFinished(config: Config, id: Bytes32, worker: Sender, job: Bytes32, raw: Hash)
    requires PowPasses(config, PayloadOf(config, 0, raw))
    ensures var result := ResultSeen(ResultFor(id, worker), Some(PayloadOf(config, 1, raw)), true, true);
      var begun := BeginRun(id, worker, job, PayloadOf(config, 0, raw));
      var s := RunFrom(config, START, begun + [Aggregate(true, true)] + [result] + [Aggregate(true, true)]);
      Orphaned(s, raw, ClassifierResult("key", Decimal.Print(7))) && raw in s.finished && s.failedJobs == 1
  {
    var proof, answer := PayloadOf(config, 0, raw), PayloadOf(config, 1, raw);
    var begun := BeginRun(id, worker, job, proof);
    var result := ResultSeen(ResultFor(id, worker), Some(answer), true, true);
    RunBegins(config, id, worker, job, proof);
    RunMore(config, START, begun, Aggregate(true, true));
    RunMore(config, START, begun + [Aggregate(true, true)], result);
    RunMore(config, START, begun + [Aggregate(true, true)] + [result], Aggregate(true, true));
    ResultIsAccepted(config, RunFrom(config, START, begun + [Aggregate(true, true)]), id, worker, job, answer);
  }
}
