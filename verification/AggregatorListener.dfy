/** The listener of the aggregator (nostr-client-plus/src/bin/aggregator.rs): what becomes of every result it
    sees, and exactly when it stops. */
module AggregatorListener {
  import opened Common
  import Wire
  import opened JobProtocol
  import opened Aggregator

  /** The tags of the assignment last stored under `id`. */
  function LastAssignment(inputs: seq<Input>, id: string): Option<seq<Wire.Tag>> {
    if inputs == [] then None
    else
      var last := inputs[|inputs| - 1];
      if last.AssignSeen? && last.stored && HexEncode(last.event.id) == id then Some(last.event.tags)
      else LastAssignment(inputs[..|inputs| - 1], id)
  }

  /** A result that parses names a stored assignment whose assignee is cut off. */
  predicate Crashes(before: seq<Input>, input: Input) {
    input.ResultSeen? && input.payload.Some? && input.reachable &&
    match SingleTag("e", input.event.tags)
    case Ok(Some(id)) => (match LastAssignment(before, id) case Some(tags) => CutOff(tags) case None => false)
    case _ => false
  }

  predicate CrashesAt(inputs: seq<Input>, k: nat)
    requires k < |inputs|
  {
    Crashes(inputs[..k], inputs[k])
  }

  lemma CrashesEarlier(inputs: seq<Input>, k: nat)
    requires k < |inputs| - 1
    ensures CrashesAt(inputs, k) <==> CrashesAt(inputs[..|inputs| - 1], k)
  {
    assert inputs[..|inputs| - 1][..k] == inputs[..k];
  }

  lemma StoppedStays(config: Config, s: State, input: Input)
    requires !s.listening
    ensures !Step(config, s, input).listening && Accounted(Step(config, s, input)) == Accounted(s)
  {
    if input.Aggregate? { AggregateMoves(config, s, input.classifierWrite, input.finishedWrite); }
  }

  ghost predicate StoreHolds(store: Store, id: string, tags: Option<seq<Wire.Tag>>) {
    if tags.Some? then id in store && store[id].tags == tags.value else id !in store
  }

  /** While the listener runs, the store holds the last assignment of every id. */
  lemma {:induction false} StoreHoldsLastAssignment(config: Config, inputs: seq<Input>, id: string)
    requires RunFrom(config, START, inputs).listening
    ensures StoreHolds(RunFrom(config, START, inputs).store, id, LastAssignment(inputs, id))
  {
    if inputs != [] {
      var s, last := RunFrom(config, START, inputs[..|inputs| - 1]), inputs[|inputs| - 1];
      if !s.listening { StoppedStays(config, s, last); }
      StepStores(config, s, last, id);
      StoreHoldsLastAssignment(config, inputs[..|inputs| - 1], id);
    }
  }

  lemma OnlyAssignmentsAreStored(config: Config, s: State, input: Input)
    requires !input.AssignSeen?
    ensures Step(config, s, input).store == s.store
  {
    match input
    case ResultSeen(_, _, _, _) =>
    case Aggregate(c, f) =>
  }

  lemma StepStores(config: Config, s: State, input: Input, id: string)
    requires s.listening
    ensures var store := Step(config, s, input).store;
      if input.AssignSeen? && input.stored && HexEncode(input.event.id) == id
      then id in store && store[id].tags == input.event.tags
      else (id in store <==> id in s.store) && (id in store ==> store[id] == s.store[id])
  {
    if !input.AssignSeen? { OnlyAssignmentsAreStored(config, s, input); }
  }

  lemma StepStopsIff(config: Config, before: seq<Input>, input: Input)
    requires RunFrom(config, START, before).listening
    ensures !Step(config, RunFrom(config, START, before), input).listening <==> Crashes(before, input)
  {
    if input.ResultSeen? {
      match SingleTag("e", input.event.tags)
      case Ok(Some(id)) =>
        StoreHoldsLastAssignment(config, before, id);
        var store := RunFrom(config, START, before).store;
        if id in store { AssigneeCheckPanicsIff(store[id].tags, input.event.sender); }
      case _ =>
    }
  }

  /** Over every run the listener has stopped if and only if some result named a stored assignment whose
      only `p` tag is an identity cut off. */
  lemma {:induction false} ListenerStopsIff(config: Config, inputs: seq<Input>)
    ensures !RunFrom(config, START, inputs).listening <==> exists k :: 0 <= k < |inputs| && CrashesAt(inputs, k)
  {
    if inputs != [] {
      var init, last := inputs[..|inputs| - 1], inputs[|inputs| - 1];
      ListenerStopsIff(config, init);
      forall k | 0 <= k < |init| ensures CrashesAt(inputs, k) <==> CrashesAt(init, k) { CrashesEarlier(inputs, k); }
      if RunFrom(config, START, init).listening {
        StepStopsIff(config, init, last);
        assert CrashesAt(inputs, |init|) <==> Crashes(init, last);
      } else {
        StoppedStays(config, RunFrom(config, START, init), last);
      }
    }
  }

  /** What holds of every assignment seen holds of the last one stored. */
  lemma {:induction false} LastAssignmentHas(inputs: seq<Input>, id: string, p: seq<Wire.Tag> -> bool)
    requires forall i :: 0 <= i < |inputs| && inputs[i].AssignSeen? ==> p(inputs[i].event.tags)
    ensures LastAssignment(inputs, id).Some? ==> p(LastAssignment(inputs, id).value)
  {
    if inputs != [] {
      LastAssignmentHas(inputs[..|inputs| - 1], id, p);
    }
  }

  /** In particular it never stops when no assignment carries such a tag. */
  lemma SoundAssignmentsKeepListening(config: Config, inputs: seq<Input>)
    requires forall i :: 0 <= i < |inputs| && inputs[i].AssignSeen? ==> !CutOff(inputs[i].event.tags)
    ensures RunFrom(config, START, inputs).listening
  {
    ListenerStopsIff(config, inputs);
    forall k | 0 <= k < |inputs| ensures !CrashesAt(inputs, k) {
      if inputs[k].ResultSeen? {
        match SingleTag("e", inputs[k].event.tags)
        case Ok(Some(id)) => LastAssignmentHas(inputs[..k], id, tags => !CutOff(tags));
        case _ =>
      }
    }
  }

  /** A run that stops it: the assignee is the empty text, and any result that names the assignment comes in. */
  lemma EmptyAssigneeStopsListener(config: Config, given: Wire.EventOnWire, result: Wire.EventOnWire,
                                   payload: ResultPayload)
    requires given.tags == [["p", ""]] && result.tags == [["e", HexEncode(given.id)]]
    ensures !RunFrom(config, START, [AssignSeen(given, true), ResultSeen(result, Some(payload), true, true)]).listening
  {
    var first, second := AssignSeen(given, true), ResultSeen(result, Some(payload), true, true);
    var inputs := [first, second];
    OnlyTag("p", "");
    OnlyTag("e", HexEncode(given.id));
    assert inputs[..1] == [first];
    assert LastAssignment([first], HexEncode(given.id)) == Some(given.tags);
    assert CrashesAt(inputs, 1);
    ListenerStopsIff(config, inputs);
  }

  // ---------------------------------------------------------------- order

  /** The message a result hands on in a state, if any. */
  function HandedOn(config: Config, s: State, input: Input): seq<Message> {
    if input.ResultSeen? && s.listening && input.delivered then
      match Judge(config, s.store, input.event.sender, JobProtocol.SingleTag("e", input.event.tags), input.payload,
                  input.reachable)
      case Accepted(m) => [m]
      case _ => []
    else []
  }

  function AllHandedOn(config: Config, inputs: seq<Input>): seq<Message> {
    if inputs == [] then []
    else
      var before := inputs[..|inputs| - 1];
      AllHandedOn(config, before) + HandedOn(config, RunFrom(config, START, before), inputs[|inputs| - 1])
  }

  predicate IsTail(tail: seq<Message>, all: seq<Message>) {
    |tail| <= |all| && tail == all[|all| - |tail|..]
  }

  lemma TailMoves(pipe: seq<Message>, all: seq<Message>, more: seq<Message>)
    requires IsTail(pipe, all)
    ensures IsTail(pipe + more, all + more)
    ensures pipe != [] ==> IsTail(pipe[1..], all)
  {
  }

  lemma PipeStep(config: Config, s: State, input: Input)
    ensures Step(config, s, input).pipe ==
      if input.Aggregate? then (if s.pipe == [] then [] else s.pipe[1..]) else s.pipe + HandedOn(config, s, input)
  {
    if input.Aggregate? && s.pipe != [] { MessageIsCounted(config, s, input.classifierWrite, input.finishedWrite); }
  }

  /** The second task takes the accepted results in the order in which they came: those it has not taken are
      always the last ones. */
  lemma {:induction false} ResultsAreHandledInOrder(config: Config, inputs: seq<Input>)
    ensures IsTail(RunFrom(config, START, inputs).pipe, AllHandedOn(config, inputs))
  {
    if inputs != [] {
      var init, last := inputs[..|inputs| - 1], inputs[|inputs| - 1];
      var s := RunFrom(config, START, init);
      ResultsAreHandledInOrder(config, init);
      PipeStep(config, s, last);
      TailMoves(s.pipe, AllHandedOn(config, init), HandedOn(config, s, last));
      if last.Aggregate? { assert AllHandedOn(config, init) + [] == AllHandedOn(config, init); }
    }
  }

  // ---------------------------------------------------------------- accounting

  function Accounted(s: State): nat {
    s.finishedJobs + s.failedJobs + s.resultErrors + s.unclassifiedErrors + |s.pipe|
  }

  function ResultsIn(inputs: seq<Input>): nat {
    if inputs == [] then 0
    else ResultsIn(inputs[..|inputs| - 1]) + if inputs[|inputs| - 1].ResultSeen? then 1 else 0
  }

  lemma ConcludeMoves(s: State, outcome: Judgement)
    requires s.listening
    ensures var s' := Conclude(s, outcome); Accounted(s') == Accounted(s) + if s'.listening then 1 else 0
  {
  }

  lemma ClassificationMoves(s: State, m: Message, c: bool, f: bool)
    ensures var s' := FinishClassification(s, m, c, f);
      Accounted(s') == Accounted(s) + 1 && s'.listening == s.listening
  {
  }

  lemma AggregateMoves(config: Config, s: State, c: bool, f: bool)
    ensures Accounted(OnAggregate(config, s, c, f)) == Accounted(s)
    ensures OnAggregate(config, s, c, f).listening == s.listening
  {
    if s.pipe != [] { ClassificationMoves(s.(pipe := s.pipe[1..]), s.pipe[0], c, f); }
  }

  lemma StepAccounts(config: Config, s: State, input: Input)
    requires s.listening
    ensures var s' := Step(config, s, input);
      Accounted(s') == Accounted(s) + if input.ResultSeen? && s'.listening then 1 else 0
  {
    match input
    case AssignSeen(_, _) =>
    case ResultSeen(ev, payload, reachable, delivered) =>
      var outcome := Judge(config, s.store, ev.sender, SingleTag("e", ev.tags), payload, reachable);
      ConcludeMoves(s, HandOn(outcome, delivered));
    case Aggregate(c, f) => AggregateMoves(config, s, c, f);
  }

  /** The number of results seen that goes with a state. */
  predicate Counts(s: State, results: nat) {
    if s.listening then results == Accounted(s) else results > Accounted(s)
  }

  lemma StepCounts(config: Config, s: State, input: Input, results: nat)
    requires Counts(s, results)
    ensures Counts(Step(config, s, input), results + if input.ResultSeen? then 1 else 0)
  {
    if s.listening { StepAccounts(config, s, input); } else { StoppedStays(config, s, input); }
  }

  lemma {:induction false} ResultsWhileListening(config: Config, inputs: seq<Input>)
    ensures Counts(RunFrom(config, START, inputs), ResultsIn(inputs))
  {
    if inputs != [] {
      var init := inputs[..|inputs| - 1];
      ResultsWhileListening(config, init);
      StepCounts(config, RunFrom(config, START, init), inputs[|inputs| - 1], ResultsIn(init));
    }
  }

  /** Each result seen is finished, failed, in error, or on its way, and none is counted twice, if and only if
      no result ever named an assignment with an assignee cut off. */
  lemma EveryResultIsAccountedFor(config: Config, inputs: seq<Input>)
    ensures ResultsIn(inputs) == Accounted(RunFrom(config, START, inputs)) <==>
      forall k :: 0 <= k < |inputs| ==> !CrashesAt(inputs, k)
  {
    ResultsWhileListening(config, inputs);
    ListenerStopsIff(config, inputs);
  }
}
