/** The aggregator (nostr-client-plus/src/bin/aggregator.rs): a listener that stores assignments and
    validates results, and a task that writes the valid results to two collections. */
module Aggregator {
  import opened Common
  import opened Senders
  import opened Wire
  import JobProtocol
  import Decimal

  type Hash = Bytes32

  datatype Header = Header(jobType: uint16, rawDataId: Hash, time: Timestamp)

  /** The text of an output, and the tags it lists when it parses as a classifier's answer. */
  datatype Output = Output(text: string, tags: Option<seq<uint16>>)

  datatype ResultPayload = ResultPayload(header: Header, output: Output, version: string, kvKey: string)

  datatype StoredEvent = StoredEvent(id: string, sender: string, tags: seq<Tag>, content: string)
  datatype FinishedJob = FinishedJob(
    workers: seq<Sender>, result: ResultPayload, jobType: uint16, assignEventId: string)
  datatype ClassifierResult = ClassifierResult(kvKey: string, tagId: string)
  type Finished = map<Hash, FinishedJob>
  type Classified = map<Hash, ClassifierResult>
  datatype Message = Message(sender: Sender, payload: ResultPayload, assignEventId: string)

  /** `powValid` stands for the hash test on the hex raw data id followed by the output. */
  datatype Config = Config(supportedVersion: string, skipPowCheck: bool, powValid: string -> bool)

  datatype State = State(
    store: map<string, StoredEvent>,            // assignments by hex event id
    pipe: seq<Message>,                         // validated results on their way to the second task
    finished: Finished,           // both collections are keyed by `_id`
    classified: Classified,
    finishedJobs: nat, failedJobs: nat, resultErrors: nat, unclassifiedErrors: nat,
    listening: bool)

  /** What happens next. The booleans say whether the store is reached, the second task takes the message,
      and the two database writes work; `payload` is the event's content, if it parses. */
  datatype Input =
    | AssignSeen(event: EventOnWire, stored: bool)
    | ResultSeen(event: EventOnWire, payload: Option<ResultPayload>, reachable: bool, delivered: bool)
    | Aggregate(classifierWrite: bool, finishedWrite: bool)

  const START := State(map[], [], map[], map[], 0, 0, 0, 0, true)

  function Stored(ev: EventOnWire): StoredEvent {
    StoredEvent(HexEncode(ev.id), HexEncode(ev.sender.ToBytes()), ev.tags, ev.content)
  }

  function PowPasses(config: Config, payload: ResultPayload): bool {
    config.skipPowCheck || config.powValid(HexEncode(payload.header.rawDataId) + payload.output.text)
  }

  /** `validate_result_event`. */
  function Validate(config: Config, sender: Sender, payload: ResultPayload, assignment: StoredEvent): Outcome<bool> {
    match JobProtocol.AssigneeCheck(assignment.tags, sender)
    case Panic => Panic
    case Return(false) => Return(false)
    case Return(true) => Return(payload.header.jobType == 0 ==> PowPasses(config, payload))
  }

  /** What a result comes to: an error metric, the end of the listener, or a message to the second task. */
  datatype Judgement = InvalidResult | Unclassified | Crashed | Refused | Accepted(message: Message)

  function Judge(config: Config, store: map<string, StoredEvent>, sender: Sender, jobTag: Result<Option<string>>,
                 payload: Option<ResultPayload>, reachable: bool): Judgement {
    match (payload, jobTag)
    case (Some(p), Ok(Some(jobId))) =>
      if !reachable || jobId !in store then Unclassified
      else
        (match Validate(config, sender, p, store[jobId])
         case Panic => Crashed
         case Return(false) => Refused
         case Return(true) => Accepted(Message(sender, p, store[jobId].id)))
    case _ => InvalidResult
  }

  /** A message that cannot be handed on is an unclassified error. */
  function HandOn(outcome: Judgement, delivered: bool): Judgement {
    if outcome.Accepted? && !delivered then Unclassified else outcome
  }

  function Conclude(s: State, outcome: Judgement): State {
    match outcome
    case InvalidResult => s.(resultErrors := s.resultErrors + 1)
    case Unclassified => s.(unclassifiedErrors := s.unclassifiedErrors + 1)
    case Crashed => s.(listening := false)
    case Refused => s.(failedJobs := s.failedJobs + 1)
    case Accepted(m) => s.(pipe := s.pipe + [m])
  }

  /** The tag a classification is filed under: the first one listed. */
  function Identifier(output: Output): Option<string> {
    match output.tags
    case Some(tags) => if tags == [] then None else Some(Decimal.Print(tags[0]))
    case None => None
  }

  function Finish(s: State, m: Message, jobType: uint16): State {
    var row := FinishedJob([m.sender], m.payload, jobType, m.assignEventId);
    s.(finished := s.finished[m.payload.header.rawDataId := row],
       finishedJobs := s.finishedJobs + 1)
  }

  function Fail(s: State): State { s.(failedJobs := s.failedJobs + 1) }

  /** A classification is written twice: first its tag, then the finished job. */
  function FinishClassification(s: State, m: Message, classifierWrite: bool, finishedWrite: bool): State {
    var id := m.payload.header.rawDataId;
    match Identifier(m.payload.output)
    case None => Fail(s)
    case Some(tag) =>
      if !classifierWrite || id in s.classified then Fail(s)
      else
        var s := s.(classified := s.classified[id := ClassifierResult(m.payload.kvKey, tag)]);
        if !finishedWrite || id in s.finished then Fail(s) else Finish(s, m, 1)
  }

  function OnAggregate(config: Config, s: State, classifierWrite: bool, finishedWrite: bool): State {
    if s.pipe == [] then s
    else
      var m, s := s.pipe[0], s.(pipe := s.pipe[1..]);
      if m.payload.version != config.supportedVersion then s.(unclassifiedErrors := s.unclassifiedErrors + 1)
      else if m.payload.header.jobType == 0 then
        if !finishedWrite || m.payload.header.rawDataId in s.finished then Fail(s) else Finish(s, m, 0)
      else if m.payload.header.jobType == 1 then FinishClassification(s, m, classifierWrite, finishedWrite)
      else s.(unclassifiedErrors := s.unclassifiedErrors + 1)
  }

  function Step(config: Config, s: State, input: Input): State {
    match input
    case AssignSeen(ev, stored) =>
      if s.listening && stored then s.(store := s.store[HexEncode(ev.id) := Stored(ev)]) else s
    case ResultSeen(ev, payload, reachable, delivered) =>
      if !s.listening then s
      else
        var outcome := Judge(config, s.store, ev.sender, JobProtocol.SingleTag("e", ev.tags), payload, reachable);
        Conclude(s, HandOn(outcome, delivered))
    case Aggregate(c, f) => OnAggregate(config, s, c, f)
  }

  function RunFrom(config: Config, s: State, inputs: seq<Input>): State {
    if inputs == [] then s
    else Step(config, RunFrom(config, s, inputs[..|inputs| - 1]), inputs[|inputs| - 1])
  }

  // ---------------------------------------------------------------- what is in the collections

  /** Event ids determine the tags of an assignment. */
  ghost predicate IdsDetermineTags(inputs: seq<Input>, tagsOf: string -> seq<Tag>) {
    forall i :: 0 <= i < |inputs| && inputs[i].AssignSeen? ==>
      tagsOf(HexEncode(inputs[i].event.id)) == inputs[i].event.tags
  }

  ghost predicate StoreInv(store: Store, tagsOf: string -> seq<Tag>) {
    forall id :: id in store ==> store[id].id == id && store[id].tags == tagsOf(id)
  }

  ghost predicate IsHexFor(tags: seq<Tag>, text: string, bytes: seq<byte>) {
    JobProtocol.SingleTag("p", tags) == Ok(Some(text)) && HexDecode(text) == Some(bytes)
  }

  /** The assignment's only `p` tag is (the hex form of) this worker. */
  ghost predicate NamesOnly(tags: seq<Tag>, worker: Sender) {
    exists text, bytes :: IsHexFor(tags, text, bytes) && worker.ToBytes() <= bytes
  }

  lemma AssigneeIsNamed(tags: seq<Tag>, worker: Sender)
    ensures JobProtocol.AssigneeCheck(tags, worker) == Return(true) <==> NamesOnly(tags, worker)
  {
    if NamesOnly(tags, worker) {
      var text, bytes :| IsHexFor(tags, text, bytes) && worker.ToBytes() <= bytes;
      DecodeExact(worker, bytes);
    }
    if JobProtocol.AssigneeCheck(tags, worker) == Return(true) {
      var text := JobProtocol.SingleTag("p", tags).value.value;
      assert IsHexFor(tags, text, HexDecode(text).value);
      DecodeExact(worker, HexDecode(text).value);
    }
  }

  type Store = map<string, StoredEvent>

  /** A result that may be written: sent by the assignment's only worker; and one of type 0, unless the check
      is skipped, with a valid proof of work over its hexadecimal data id followed by its output. */
  ghost predicate Legitimate(config: Config, store: Store, worker: Sender, payload: ResultPayload,
                             assignEventId: string)
  {
    && assignEventId in store && NamesOnly(store[assignEventId].tags, worker)
    && (payload.header.jobType == 0 && !config.skipPowCheck ==>
         config.powValid(HexEncode(payload.header.rawDataId) + payload.output.text))
  }

  ghost predicate PipeOk(config: Config, store: Store, pipe: seq<Message>) {
    forall i :: 0 <= i < |pipe| ==> Legitimate(config, store, pipe[i].sender, pipe[i].payload, pipe[i].assignEventId)
  }

  /** A row of the finished jobs, and for a classification its companion among the classifier results. */
  ghost predicate RowOk(config: Config, store: Store, classified: Classified, id: Hash, row: FinishedJob) {
    && row.result.header.rawDataId == id && row.result.version == config.supportedVersion
    && row.jobType == row.result.header.jobType && |row.workers| == 1
    && Legitimate(config, store, row.workers[0], row.result, row.assignEventId)
    && (row.jobType == 0 || (row.jobType == 1 && id in classified &&
         classified[id].kvKey == row.result.kvKey && FirstTag(row.result.output, classified[id].tagId)))
  }

  /** The output parses to a non-empty list, and this is the first tag of it in decimal. */
  predicate FirstTag(output: Output, tag: string) {
    output.tags.Some? && output.tags.value != [] && tag == Decimal.Print(output.tags.value[0])
  }

  ghost predicate RowsOk(config: Config, store: Store, classified: Classified, finished: Finished) {
    forall id :: id in finished ==> RowOk(config, store, classified, id, finished[id])
  }

  ghost predicate Inv(config: Config, s: State, tagsOf: string -> seq<Tag>) {
    && StoreInv(s.store, tagsOf) && Sound(config, s.store, s.pipe, s.classified, s.finished)
    && s.finishedJobs == |s.finished|
  }

  ghost predicate Sound(config: Config, store: Store, pipe: seq<Message>,
                        classified: Classified, finished: Finished) {
    PipeOk(config, store, pipe) && RowsOk(config, store, classified, finished)
  }

  /** Nothing already stored loses or changes its tags. */
  ghost predicate Keeps(store: Store, store': Store) {
    forall id :: id in store ==> id in store' && store'[id].tags == store[id].tags
  }

  lemma FinishedGrows(config: Config, store: Store, classified: Classified, finished: Finished,
                      id: Hash, row: FinishedJob)
    requires RowsOk(config, store, classified, finished) && RowOk(config, store, classified, id, row) && id !in finished
    ensures RowsOk(config, store, classified, finished[id := row]) && |finished[id := row]| == |finished| + 1
  {
  }

  lemma AssignKeeps(config: Config, s: State, ev: EventOnWire, stored: bool, tagsOf: string -> seq<Tag>)
    requires Inv(config, s, tagsOf) && tagsOf(HexEncode(ev.id)) == ev.tags
    ensures Inv(config, Step(config, s, AssignSeen(ev, stored)), tagsOf)
  {
    var s' := Step(config, s, AssignSeen(ev, stored));
    assert Keeps(s.store, s'.store);
  }

  lemma AcceptedIsLegitimate(config: Config, store: Store, sender: Sender, jobTag: Result<Option<string>>,
                             payload: Option<ResultPayload>, reachable: bool)
    requires forall id :: id in store ==> store[id].id == id
    requires Judge(config, store, sender, jobTag, payload, reachable).Accepted?
    ensures var m := Judge(config, store, sender, jobTag, payload, reachable).message;
      m.sender == sender && Some(m.payload) == payload && jobTag == Ok(Some(m.assignEventId))
      && Legitimate(config, store, m.sender, m.payload, m.assignEventId)
  {
    AssigneeIsNamed(store[jobTag.value.value].tags, sender);
  }

  /** What becomes of each result. It is accepted exactly when it parses, names one stored assignment and is
      legitimate; an invalid one does not parse or names none; an unclassified one names none that can be found;
      one whose assignment is cut off crashes the listener; every other is refused. */
  lemma JudgementIs(config: Config, store: Store, sender: Sender, jobTag: Result<Option<string>>,
                    payload: Option<ResultPayload>, reachable: bool)
    requires forall id :: id in store ==> store[id].id == id
    ensures var judgement := Judge(config, store, sender, jobTag, payload, reachable);
      if payload == None || jobTag == Err || jobTag == Ok(None) then judgement == InvalidResult
      else
        var p, id := payload.value, jobTag.value.value;
        if !reachable || id !in store then judgement == Unclassified
        else if JobProtocol.CutOff(store[id].tags) then judgement == Crashed
        else if Legitimate(config, store, sender, p, id) then judgement == Accepted(Message(sender, p, id))
        else judgement == Refused
  {
    if payload.Some? && jobTag.Ok? && jobTag.value.Some? && jobTag.value.value in store {
      JobProtocol.AssigneeCheckPanicsIff(store[jobTag.value.value].tags, sender);
      AssigneeIsNamed(store[jobTag.value.value].tags, sender);
    }
  }

  /** Which metric counts it. */
  lemma JudgementIsCounted(s: State, outcome: Judgement)
    ensures var s' := Conclude(s, outcome);
      && s'.resultErrors == s.resultErrors + (if outcome.InvalidResult? then 1 else 0)
      && s'.unclassifiedErrors == s.unclassifiedErrors + (if outcome.Unclassified? then 1 else 0)
      && s'.failedJobs == s.failedJobs + (if outcome.Refused? then 1 else 0)
      && s'.pipe == s.pipe + (if outcome.Accepted? then [outcome.message] else [])
      && s'.listening == (s.listening && !outcome.Crashed?)
      && s'.finishedJobs == s.finishedJobs && s'.finished == s.finished && s'.classified == s.classified
  {
  }

  /** The second task finishes this message: the version is right, the writes work, and the id is new. */
  predicate Finishes(config: Config, s: State, m: Message, c: bool, f: bool) {
    && m.payload.version == config.supportedVersion && f && m.payload.header.rawDataId !in s.finished
    && (m.payload.header.jobType == 0 ||
        (m.payload.header.jobType == 1 && c && m.payload.header.rawDataId !in s.classified
         && m.payload.output.tags.Some? && m.payload.output.tags.value != []))
  }

  /** What the second task writes for the message in front. */
  lemma MessageIsFinished(config: Config, s: State, c: bool, f: bool)
    requires s.pipe != []
    ensures var m, s' := s.pipe[0], OnAggregate(config, s, c, f);
      if Finishes(config, s, m, c, f) then
        var row := FinishedJob([m.sender], m.payload, m.payload.header.jobType, m.assignEventId);
        s'.finished == s.finished[m.payload.header.rawDataId := row] && s'.finishedJobs == s.finishedJobs + 1
      else s'.finished == s.finished && s'.finishedJobs == s.finishedJobs
  {
  }

  /** And which metric counts it: a wrong version or an unknown type is an unclassified error, every other
      message that is not finished has failed. */
  lemma MessageIsCounted(config: Config, s: State, c: bool, f: bool)
    requires s.pipe != []
    ensures var m, s' := s.pipe[0], OnAggregate(config, s, c, f);
      var known := m.payload.version == config.supportedVersion && m.payload.header.jobType < 2;
      && s'.pipe == s.pipe[1..] && s'.resultErrors == s.resultErrors
      && s'.unclassifiedErrors == s.unclassifiedErrors + (if known then 0 else 1)
      && s'.failedJobs == s.failedJobs + (if known && !Finishes(config, s, m, c, f) then 1 else 0)
  {
    var m, s' := s.pipe[0], s.(pipe := s.pipe[1..]);
    if m.payload.version == config.supportedVersion && m.payload.header.jobType == 1 {
      ClassificationIsCounted(config, s', m, c, f);
    }
  }

  lemma ClassificationIsCounted(config: Config, s: State, m: Message, c: bool, f: bool)
    requires m.payload.version == config.supportedVersion && m.payload.header.jobType == 1
    ensures var s' := FinishClassification(s, m, c, f);
      && s'.pipe == s.pipe && s'.resultErrors == s.resultErrors && s'.unclassifiedErrors == s.unclassifiedErrors
      && s'.failedJobs == s.failedJobs + (if Finishes(config, s, m, c, f) then 0 else 1)
  {
  }

  /** And what it files under a tag: the first one of a classification whose write works on a new id. Without
      any tag nothing is written at all. */
  lemma ClassificationIsFiled(config: Config, s: State, c: bool, f: bool)
    requires s.pipe != []
    ensures var p, s' := s.pipe[0].payload, OnAggregate(config, s, c, f);
      var id, tags := p.header.rawDataId, p.output.tags;
      && s'.classified ==
           (if p.version == config.supportedVersion && p.header.jobType == 1 && c && id !in s.classified
               && tags.Some? && tags.value != []
            then s.classified[id := ClassifierResult(p.kvKey, Decimal.Print(tags.value[0]))] else s.classified)
      && (p.header.jobType == 1 && (tags == None || tags == Some([])) ==> s'.finished == s.finished)
  {
  }

  lemma ConcludeKeeps(config: Config, s: State, outcome: Judgement, tagsOf: string -> seq<Tag>)
    requires Inv(config, s, tagsOf)
    requires outcome.Accepted? ==>
      Legitimate(config, s.store, outcome.message.sender, outcome.message.payload, outcome.message.assignEventId)
    ensures Inv(config, Conclude(s, outcome), tagsOf)
  {
    match outcome
    case Accepted(m) =>
      assert Sound(config, s.store, s.pipe + [m], s.classified, s.finished);
    case _ =>
      assert Sound(config, s.store, s.pipe, s.classified, s.finished);
  }

  lemma FinishKeeps(config: Config, s: State, m: Message, jobType: uint16, tagsOf: string -> seq<Tag>)
    requires Inv(config, s, tagsOf) && m.payload.header.rawDataId !in s.finished
    requires RowOk(config, s.store, s.classified, m.payload.header.rawDataId,
                   FinishedJob([m.sender], m.payload, jobType, m.assignEventId))
    ensures Inv(config, Finish(s, m, jobType), tagsOf)
  {
    FinishedGrows(config, s.store, s.classified, s.finished, m.payload.header.rawDataId,
                  FinishedJob([m.sender], m.payload, jobType, m.assignEventId));
  }

  lemma TagKeeps(config: Config, s: State, id: Hash, result: ClassifierResult, tagsOf: string -> seq<Tag>)
    requires Inv(config, s, tagsOf) && id !in s.classified
    ensures Inv(config, s.(classified := s.classified[id := result]), tagsOf)
  {
  }

  lemma ClassifiedRowIsOk(config: Config, store: Store, classified: Classified, m: Message)
    requires m.payload.version == config.supportedVersion && m.payload.header.jobType == 1
    requires Legitimate(config, store, m.sender, m.payload, m.assignEventId)
    requires m.payload.header.rawDataId in classified
    requires classified[m.payload.header.rawDataId].kvKey == m.payload.kvKey
    requires FirstTag(m.payload.output, classified[m.payload.header.rawDataId].tagId)
    ensures RowOk(config, store, classified, m.payload.header.rawDataId,
                  FinishedJob([m.sender], m.payload, 1, m.assignEventId))
  {
  }

  lemma ClassificationKeeps(config: Config, s: State, m: Message, c: bool, f: bool, tagsOf: string -> seq<Tag>)
    requires Inv(config, s, tagsOf) && m.payload.version == config.supportedVersion && m.payload.header.jobType == 1
    requires Legitimate(config, s.store, m.sender, m.payload, m.assignEventId)
    ensures Inv(config, FinishClassification(s, m, c, f), tagsOf)
  {
    var id := m.payload.header.rawDataId;
    if Identifier(m.payload.output).Some? && c && id !in s.classified {
      var result := ClassifierResult(m.payload.kvKey, Identifier(m.payload.output).value);
      var s' := s.(classified := s.classified[id := result]);
      TagKeeps(config, s, id, result, tagsOf);
      if f && id !in s.finished {
        ClassifiedRowIsOk(config, s'.store, s'.classified, m);
        FinishKeeps(config, s', m, 1, tagsOf);
      }
    }
  }

  lemma AggregateKeeps(config: Config, s: State, c: bool, f: bool, tagsOf: string -> seq<Tag>)
    requires Inv(config, s, tagsOf)
    ensures Inv(config, OnAggregate(config, s, c, f), tagsOf)
  {
    if s.pipe != [] {
      var m, s' := s.pipe[0], s.(pipe := s.pipe[1..]);
      assert Legitimate(config, s.store, m.sender, m.payload, m.assignEventId);
      assert Inv(config, s', tagsOf);
      if m.payload.version == config.supportedVersion {
        if m.payload.header.jobType == 0 {
          if f && m.payload.header.rawDataId !in s.finished { FinishKeeps(config, s', m, 0, tagsOf); }
        } else if m.payload.header.jobType == 1 {
          ClassificationKeeps(config, s', m, c, f, tagsOf);
        }
      }
    }
  }

  lemma StepKeeps(config: Config, s: State, input: Input, tagsOf: string -> seq<Tag>)
    requires Inv(config, s, tagsOf)
    requires input.AssignSeen? ==> tagsOf(HexEncode(input.event.id)) == input.event.tags
    ensures Inv(config, Step(config, s, input), tagsOf)
  {
    match input
    case AssignSeen(ev, stored) => AssignKeeps(config, s, ev, stored, tagsOf);
    case ResultSeen(ev, payload, reachable, delivered) =>
      var jobTag := JobProtocol.SingleTag("e", ev.tags);
      var outcome := Judge(config, s.store, ev.sender, jobTag, payload, reachable);
      if outcome.Accepted? { AcceptedIsLegitimate(config, s.store, ev.sender, jobTag, payload, reachable); }
      ConcludeKeeps(config, s, HandOn(outcome, delivered), tagsOf);
    case Aggregate(c, f) => AggregateKeeps(config, s, c, f, tagsOf);
  }

  /** Over every run, taking event ids to determine an assignment's tags: the metric of finished jobs is
      the number of rows, ids are unique, and every row was sent by the only worker of the assignment
      stored under its assign event id, in the supported version, with its proof of work or its
      classifier row. */
  lemma {:induction false} FinishedJobsAreLegitimate(config: Config, inputs: seq<Input>, tagsOf: string -> seq<Tag>)
    requires IdsDetermineTags(inputs, tagsOf)
    ensures Inv(config, RunFrom(config, START, inputs), tagsOf)
  {
    if inputs != [] {
      FinishedJobsAreLegitimate(config, inputs[..|inputs| - 1], tagsOf);
      StepKeeps(config, RunFrom(config, START, inputs[..|inputs| - 1]), inputs[|inputs| - 1], tagsOf);
    }
  }

  // ---------------------------------------------------------------- the running program

  /** The two tasks and what they share. */
  class Service {
    const config: Config
    var store: Store
    var pipe: seq<Message>
    var finished: Finished
    var classified: Classified
    var finishedJobs: nat
    var failedJobs: nat
    var resultErrors: nat
    var unclassifiedErrors: nat
    var listening: bool

    ghost function Snapshot(): State
      reads this
    {
      State(store, pipe, finished, classified, finishedJobs, failedJobs, resultErrors, unclassifiedErrors, listening)
    }

    constructor (config: Config)
      ensures Snapshot() == START && this.config == config
    {
      this.config := config;
      store, pipe, finished, classified := map[], [], map[], map[];
      finishedJobs, failedJobs, resultErrors, unclassifiedErrors, listening := 0, 0, 0, 0, true;
    }

    method SaveAssignment(ev: EventOnWire, stored: bool)
      requires listening
      modifies this`store
      ensures Snapshot() == Step(config, old(Snapshot()), AssignSeen(ev, stored))
      ensures var row := StoredEvent(HexEncode(ev.id), HexEncode(ev.sender.ToBytes()), ev.tags, ev.content);
        store == if stored then old(store)[HexEncode(ev.id) := row] else old(store)
    {
      if stored {
        var key := HexEncode(ev.id);
        store := store[key := StoredEvent(key, HexEncode(ev.sender.ToBytes()), ev.tags, ev.content)];
      }
    }

    method HandleResult(ev: EventOnWire, payload: Option<ResultPayload>, reachable: bool, delivered: bool)
      requires listening
      modifies this
      ensures Snapshot() == Step(config, old(Snapshot()), ResultSeen(ev, payload, reachable, delivered))
    {
      if payload == None {
        resultErrors := resultErrors + 1;
        return;
      }
      var jobTag := JobProtocol.GetSingleTagEntry('e', ev.tags);
      assert ['e'] == "e";
      if jobTag.Err? || jobTag.value.None? {
        resultErrors := resultErrors + 1;
        return;
      }
      var jobId := jobTag.value.value;
      if !reachable || jobId !in store {
        unclassifiedErrors := unclassifiedErrors + 1;
        return;
      }
      var assignment := store[jobId];
      match Validate(config, ev.sender, payload.value, assignment) {
        case Panic => listening := false;
        case Return(false) => failedJobs := failedJobs + 1;
        case Return(true) =>
          if delivered {
            pipe := pipe + [Message(ev.sender, payload.value, assignment.id)];
          } else {
            unclassifiedErrors := unclassifiedErrors + 1;
          }
      }
    }

    /** A collection refuses a second document with the same `_id`. */
    method InsertFinished(id: Hash, row: FinishedJob, works: bool) returns (ok: bool)
      modifies this`finished
      ensures ok == (works && id !in old(finished))
      ensures finished == if ok then old(finished)[id := row] else old(finished)
    {
      ok := works && id !in finished;
      if ok { finished := finished[id := row]; }
    }

    method InsertClassified(id: Hash, row: ClassifierResult, works: bool) returns (ok: bool)
      modifies this`classified
      ensures ok == (works && id !in old(classified))
      ensures classified == if ok then old(classified)[id := row] else old(classified)
    {
      ok := works && id !in classified;
      if ok { classified := classified[id := row]; }
    }

    method FinalizeClassification(m: Message, classifierWrite: bool, finishedWrite: bool)
      modifies this
      ensures Snapshot() == FinishClassification(old(Snapshot()), m, classifierWrite, finishedWrite)
    {
      var id := m.payload.header.rawDataId;
      var tag := Identifier(m.payload.output);
      var ok := tag.Some?;
      if ok { ok := InsertClassified(id, ClassifierResult(m.payload.kvKey, tag.value), classifierWrite); }
      if ok { ok := InsertFinished(id, FinishedJob([m.sender], m.payload, 1, m.assignEventId), finishedWrite); }
      if ok { finishedJobs := finishedJobs + 1; } else { failedJobs := failedJobs + 1; }
    }

    method AggregateNext(classifierWrite: bool, finishedWrite: bool)
      requires pipe != []
      modifies this
      ensures Snapshot() == Step(config, old(Snapshot()), Aggregate(classifierWrite, finishedWrite))
    {
      var m := pipe[0];
      pipe := pipe[1..];
      var jobType := m.payload.header.jobType;
      if m.payload.version != config.supportedVersion {
        unclassifiedErrors := unclassifiedErrors + 1;
      } else if jobType == 0 {
        var row := FinishedJob([m.sender], m.payload, jobType, m.assignEventId);
        var ok := InsertFinished(m.payload.header.rawDataId, row, finishedWrite);
        if ok { finishedJobs := finishedJobs + 1; } else { failedJobs := failedJobs + 1; }
      } else if jobType == 1 {
        FinalizeClassification(m, classifierWrite, finishedWrite);
      } else {
        unclassifiedErrors := unclassifiedErrors + 1;
      }
    }
  }
}
