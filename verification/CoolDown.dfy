/** The cool-down among concurrent tasks (nostr-client-plus/src/bin/assigner.rs): retry tasks share the map of
    assigned senders with the task that handles heartbeats. A publication reads the clock first and then locks
    the map once per worker; a heartbeat locks it for its check and is admitted later. Exactly which admissions
    come too soon after an assignment, and that none does when these steps do not overlap. */
module CoolDown {
  import opened Common
  import opened Senders
  import WorkersBook
  import Scheduler

  const COOL: nat := WorkersBook.COOL_DOWN_PERIOD

  datatype Fact =
    | Assigned(worker: Sender, at: Instant)              // a publication read the clock
    | Recorded(worker: Sender, at: Instant)              // its reading entered the map
    | Passed(worker: Sender, at: Instant)                // a heartbeat passed the check
    | Admitted(worker: Sender, at: Instant, check: nat)  // and was admitted; `check` is where it passed

  /** A publication with the workers it has not recorded yet. */
  datatype Task = Task(at: Instant, left: seq<Sender>)

  datatype State = State(
    now: Instant, assignedAt: map<Sender, Instant>, tasks: seq<Task>,
    checked: Option<nat>,  // the heartbeat under way, by where its check stands in the log
    log: seq<Fact>)

  datatype Event =
    | Publish(workers: seq<Sender>, delay: nat)
    | RecordNext(task: nat)
    | Check(worker: Sender, delay: nat)
    | Admit(delay: nat)

  const START := State(0, map[], [], None, [])

  function AssignedTo(workers: seq<Sender>, t: Instant): seq<Fact> {
    if workers == [] then [] else AssignedTo(workers[..|workers| - 1], t) + [Assigned(workers[|workers| - 1], t)]
  }

  function Step(s: State, e: Event): State {
    match e
    case Publish(workers, delay) =>
      var t := Scheduler.Later(s.now, delay);
      s.(now := t, tasks := s.tasks + [Task(t, workers)], log := s.log + AssignedTo(workers, t))
    case RecordNext(k) =>
      if |s.tasks| <= k || s.tasks[k].left == [] then s
      else
        var at, w := s.tasks[k].at, s.tasks[k].left[0];
        s.(tasks := s.tasks[k := Task(at, s.tasks[k].left[1..])], assignedAt := s.assignedAt[w := at],
           log := s.log + [Recorded(w, at)])
    case Check(w, delay) =>
      var t := Scheduler.Later(s.now, delay);
      if s.checked.Some? then s
      else if Scheduler.TooEarly(s.assignedAt, w, t) then s.(now := t)
      else s.(now := t, checked := Some(|s.log|), log := s.log + [Passed(w, t)])
    case Admit(delay) =>
      var t := Scheduler.Later(s.now, delay);
      if s.checked.None? || |s.log| <= s.checked.value then s
      else
        var c := s.checked.value;
        s.(now := t, checked := None, log := s.log + [Admitted(s.log[c].worker, t, c)])
  }

  function RunFrom(s: State, es: seq<Event>): State {
    if es == [] then s else Step(RunFrom(s, es[..|es| - 1]), es[|es| - 1])
  }

  // ---------------------------------------------------------------- what a check can miss

  /** The reading in the map: that of the last record, which need not be the latest reading. */
  function LastRecorded(log: seq<Fact>, w: Sender): Option<Instant> {
    if log == [] then None
    else
      var last := log[|log| - 1];
      if last.Recorded? && last.worker == w then Some(last.at) else LastRecorded(log[..|log| - 1], w)
  }

  /** A check at `c` misses an assignment read at `at` when the map holds nothing for the worker, because the
      record comes later, or an older reading, because that was recorded over it or the record comes later. */
  predicate Missed(log: seq<Fact>, c: nat, w: Sender, at: Instant)
    requires c <= |log|
  {
    match LastRecorded(log[..c], w)
    case None => true
    case Some(recorded) => recorded < at
  }

  /** The check at `c` let the worker pass rightly, by what the map held. */
  ghost predicate RightlyPassed(log: seq<Fact>, c: nat)
    requires c < |log|
  {
    log[c].Passed? && match LastRecorded(log[..c], log[c].worker)
      case None => true
      case Some(recorded) => log[c].at - recorded >= COOL
  }

  ghost predicate RightlyAdmitted(log: seq<Fact>, a: nat)
    requires a < |log|
  {
    log[a].Admitted? ==>
      var c := log[a].check;
      c < a && RightlyPassed(log, c) && log[c].worker == log[a].worker && log[c].at <= log[a].at
  }

  ghost predicate Inv(s: State) {
    && (forall w :: (w in s.assignedAt <==> LastRecorded(s.log, w).Some?) &&
                    (w in s.assignedAt ==> LastRecorded(s.log, w) == Some(s.assignedAt[w])))
    && (forall a :: 0 <= a < |s.log| ==> RightlyAdmitted(s.log, a))
    && (s.checked.Some? ==>
         s.checked.value < |s.log| && RightlyPassed(s.log, s.checked.value) && s.log[s.checked.value].at <= s.now)
  }

  lemma LastRecordedMore(log: seq<Fact>, fact: Fact, w: Sender)
    ensures LastRecorded(log + [fact], w) ==
      if fact.Recorded? && fact.worker == w then Some(fact.at) else LastRecorded(log, w)
  {
    assert (log + [fact])[..|log|] == log;
  }

  lemma PassedStays(log: seq<Fact>, facts: seq<Fact>, c: nat)
    requires c < |log| && RightlyPassed(log, c)
    ensures RightlyPassed(log + facts, c)
  {
    assert (log + facts)[..c] == log[..c];
  }

  lemma AdmittedStays(log: seq<Fact>, fact: Fact)
    requires forall a :: 0 <= a < |log| ==> RightlyAdmitted(log, a)
    requires RightlyAdmitted(log + [fact], |log|)
    ensures forall a :: 0 <= a < |log + [fact]| ==> RightlyAdmitted(log + [fact], a)
  {
    forall a | 0 <= a < |log + [fact]| ensures RightlyAdmitted(log + [fact], a) {
      if a < |log| {
        assert (log + [fact])[a] == log[a] && RightlyAdmitted(log, a);
        if log[a].Admitted? { PassedStays(log, [fact], log[a].check); }
      }
    }
  }

  /** One more fact, with what it does to the map. */
  lemma FactKeeps(s: State, s': State, fact: Fact)
    requires Inv(s) && s'.log == s.log + [fact] && s.now <= s'.now && RightlyAdmitted(s'.log, |s.log|)
    requires s'.assignedAt == if fact.Recorded? then s.assignedAt[fact.worker := fact.at] else s.assignedAt
    requires s'.checked == s.checked || s'.checked == None ||
      (s'.checked == Some(|s.log|) && RightlyPassed(s'.log, |s.log|) && fact.at <= s'.now)
    ensures Inv(s')
  {
    forall w ensures LastRecorded(s'.log, w) ==
      if fact.Recorded? && fact.worker == w then Some(fact.at) else LastRecorded(s.log, w)
    {
      LastRecordedMore(s.log, fact, w);
    }
    AdmittedStays(s.log, fact);
    if s'.checked == s.checked && s.checked.Some? { PassedStays(s.log, [fact], s.checked.value); }
  }

  lemma {:induction false} AssigningKeeps(s: State, workers: seq<Sender>, t: Instant)
    requires Inv(s) && s.now <= t
    ensures Inv(s.(now := t, log := s.log + AssignedTo(workers, t)))
  {
    if workers == [] {
      assert s.log + AssignedTo(workers, t) == s.log;
    } else {
      var init, last := workers[..|workers| - 1], Assigned(workers[|workers| - 1], t);
      AssigningKeeps(s, init, t);
      var before := s.(now := t, log := s.log + AssignedTo(init, t));
      Associate(s.log, AssignedTo(init, t), [last]);
      FactKeeps(before, before.(log := before.log + [last]), last);
    }
  }

  lemma StepKeeps(s: State, e: Event)
    requires Inv(s)
    ensures Inv(Step(s, e))
  {
    var s' := Step(s, e);
    match e
    case Publish(workers, delay) => AssigningKeeps(s, workers, s'.now);
    case RecordNext(k) =>
      if k < |s.tasks| && s.tasks[k].left != [] { FactKeeps(s, s', Recorded(s.tasks[k].left[0], s.tasks[k].at)); }
    case Check(w, delay) =>
      if s.checked.None? && s'.checked.Some? {
        assert s'.log[..|s.log|] == s.log;
        FactKeeps(s, s', Passed(w, s'.now));
      }
    case Admit(delay) =>
      if s.checked.Some? {
        var fact := Admitted(s.log[s.checked.value].worker, s'.now, s.checked.value);
        PassedStays(s.log, [fact], s.checked.value);
        FactKeeps(s, s', fact);
      }
  }

  lemma {:induction false} RunKeeps(es: seq<Event>)
    ensures Inv(RunFrom(START, es))
  {
    if es != [] {
      RunKeeps(es[..|es| - 1]);
      StepKeeps(RunFrom(START, es[..|es| - 1]), es[|es| - 1]);
    }
  }

  /** The worker assigned at `i` is admitted at `a`. */
  ghost predicate Follows(log: seq<Fact>, i: int, a: int) {
    0 <= i < a < |log| && log[i].Assigned? && log[a].Admitted? && log[a].worker == log[i].worker
  }

  ghost predicate Cool(log: seq<Fact>, i: int, a: int)
    requires Follows(log, i, a)
  {
    log[a].at - log[i].at >= 30_000_000_000
  }

  /** No admission comes within the cool-down after an assignment. */
  ghost predicate CoolDownKept(log: seq<Fact>) {
    forall i, a :: Follows(log, i, a) ==> Cool(log, i, a)
  }

  ghost predicate MissedByCheck(log: seq<Fact>, i: int, a: int)
    requires Follows(log, i, a)
  {
    log[a].check <= |log| && Missed(log, log[a].check, log[i].worker, log[i].at)
  }

  /** An admission too soon after an assignment is always one whose check missed it. */
  lemma TooSoonMeansMissed(es: seq<Event>, i: int, a: int)
    requires Follows(RunFrom(START, es).log, i, a) && !Cool(RunFrom(START, es).log, i, a)
    ensures MissedByCheck(RunFrom(START, es).log, i, a)
  {
    RunKeeps(es);
    assert RightlyAdmitted(RunFrom(START, es).log, a);
  }

  /** Over every run the cool-down is kept if and only if it is kept after the assignments that checks missed. */
  lemma CoolDownKeptIff(es: seq<Event>)
    ensures var log := RunFrom(START, es).log;
      CoolDownKept(log) <==> forall i, a :: Follows(log, i, a) && MissedByCheck(log, i, a) ==> Cool(log, i, a)
  {
    var log := RunFrom(START, es).log;
    forall i, a | Follows(log, i, a) && !Cool(log, i, a) ensures MissedByCheck(log, i, a) {
      TooSoonMeansMissed(es, i, a);
    }
  }

  // ---------------------------------------------------------------- without overlap

  predicate AllRecorded(s: State) {
    forall k :: 0 <= k < |s.tasks| ==> s.tasks[k].left == []
  }

  /** A publication starts only when no heartbeat is under way and the one before has recorded all its workers;
      a check only when all have been recorded. */
  predicate Orderly(s: State, e: Event) {
    match e
    case Publish(_, _) => s.checked.None? && AllRecorded(s)
    case Check(_, _) => AllRecorded(s)
    case _ => true
  }

  ghost predicate OrderlyFrom(s: State, es: seq<Event>) {
    es == [] || (OrderlyFrom(s, es[..|es| - 1]) && Orderly(RunFrom(s, es[..|es| - 1]), es[|es| - 1]))
  }

  predicate InMap(s: State, w: Sender, at: Instant) {
    w in s.assignedAt && at <= s.assignedAt[w]
  }

  /** The assignment is in the map, or its task has yet to record it. */
  ghost predicate Covered(s: State, w: Sender, at: Instant) {
    InMap(s, w, at) || exists k :: 0 <= k < |s.tasks| && s.tasks[k].at == at && w in s.tasks[k].left
  }

  predicate Unfinished(s: State, k: int) {
    0 <= k < |s.tasks| && s.tasks[k].left != []
  }

  /** At most one task is unfinished, and what it has to record is the latest reading. */
  ghost predicate OneAtATime(s: State) {
    && (forall k, m :: Unfinished(s, k) && Unfinished(s, m) ==> k == m)
    && (forall k, w :: Unfinished(s, k) && w in s.assignedAt ==> s.assignedAt[w] <= s.tasks[k].at)
    && (forall k :: 0 <= k < |s.tasks| ==> s.tasks[k].at <= s.now)
    && (forall w :: w in s.assignedAt ==> s.assignedAt[w] <= s.now)
  }

  ghost predicate OrderlyInv(s: State) {
    && OneAtATime(s) && CoolDownKept(s.log)
    && (forall i :: 0 <= i < |s.log| && s.log[i].Assigned? ==> Covered(s, s.log[i].worker, s.log[i].at))
    && (s.checked.Some? ==> AllRecorded(s) && s.checked.value == |s.log| - 1)
  }

  lemma {:induction false} AssignedFacts(workers: seq<Sender>, t: Instant)
    ensures forall i :: 0 <= i < |AssignedTo(workers, t)| ==>
      var fact := AssignedTo(workers, t)[i]; fact.Assigned? && fact.at == t && fact.worker in workers
  {
    if workers != [] {
      AssignedFacts(workers[..|workers| - 1], t);
    }
  }

  lemma QuietIsCool(log: seq<Fact>, facts: seq<Fact>)
    requires CoolDownKept(log) && forall i :: 0 <= i < |facts| ==> !facts[i].Admitted?
    ensures CoolDownKept(log + facts)
  {
    forall i, a | Follows(log + facts, i, a) ensures Cool(log + facts, i, a) {
      assert a < |log|;
      assert Follows(log, i, a) && Cool(log, i, a);
    }
  }

  lemma PublishIsOrderly(s: State, workers: seq<Sender>, delay: nat)
    requires OrderlyInv(s) && Orderly(s, Publish(workers, delay))
    ensures OrderlyInv(Step(s, Publish(workers, delay)))
  {
    var s' := Step(s, Publish(workers, delay));
    AssignedFacts(workers, s'.now);
    QuietIsCool(s.log, AssignedTo(workers, s'.now));
    forall i | 0 <= i < |s'.log| && s'.log[i].Assigned? ensures Covered(s', s'.log[i].worker, s'.log[i].at) {
      if i < |s.log| {
        assert s'.log[i] == s.log[i] && Covered(s, s.log[i].worker, s.log[i].at);
        assert InMap(s', s'.log[i].worker, s'.log[i].at);
      } else {
        assert s'.tasks[|s.tasks|].at == s'.log[i].at && s'.log[i].worker in s'.tasks[|s.tasks|].left;
      }
    }
  }

  lemma CoveredWhileRecording(s: State, k: nat, w: Sender, at: Instant)
    requires OneAtATime(s) && Covered(s, w, at) && k < |s.tasks| && s.tasks[k].left != []
    ensures Covered(Step(s, RecordNext(k)), w, at)
  {
    var s', left := Step(s, RecordNext(k)), s.tasks[k].left;
    assert left == [left[0]] + left[1..];
    if InMap(s, w, at) {
      assert InMap(s', w, at);
    } else {
      var m :| 0 <= m < |s.tasks| && s.tasks[m].at == at && w in s.tasks[m].left;
      assert Unfinished(s, m) && Unfinished(s, k);
      if w == left[0] { assert InMap(s', w, at); } else { assert w in s'.tasks[k].left && s'.tasks[k].at == at; }
    }
  }

  lemma RecordIsOrderly(s: State, k: nat)
    requires OrderlyInv(s)
    ensures OrderlyInv(Step(s, RecordNext(k)))
  {
    if k < |s.tasks| && s.tasks[k].left != [] {
      var s' := Step(s, RecordNext(k));
      assert Unfinished(s, k);
      forall m | Unfinished(s', m) ensures Unfinished(s, m) { assert m == k || s'.tasks[m] == s.tasks[m]; }
      QuietIsCool(s.log, [Recorded(s.tasks[k].left[0], s.tasks[k].at)]);
      forall i | 0 <= i < |s'.log| && s'.log[i].Assigned? ensures Covered(s', s'.log[i].worker, s'.log[i].at) {
        assert s'.log[i] == s.log[i];
        CoveredWhileRecording(s, k, s.log[i].worker, s.log[i].at);
      }
    }
  }

  lemma CheckIsOrderly(s: State, w: Sender, delay: nat)
    requires OrderlyInv(s) && Orderly(s, Check(w, delay))
    ensures OrderlyInv(Step(s, Check(w, delay)))
  {
    var s' := Step(s, Check(w, delay));
    if s'.log != s.log { QuietIsCool(s.log, [Passed(w, s'.now)]); }
    forall i | 0 <= i < |s'.log| && s'.log[i].Assigned? ensures Covered(s', s'.log[i].worker, s'.log[i].at) {
      assert s'.log[i] == s.log[i] && Covered(s, s.log[i].worker, s.log[i].at);
    }
  }

  lemma AdmitIsOrderly(s: State, delay: nat)
    requires Inv(s) && OrderlyInv(s)
    ensures OrderlyInv(Step(s, Admit(delay)))
  {
    if s.checked.Some? {
      var c, s' := s.checked.value, Step(s, Admit(delay));
      assert s.log == s.log[..c] + [s.log[c]];
      LastRecordedMore(s.log[..c], s.log[c], s.log[c].worker);
      forall i, a | Follows(s'.log, i, a) ensures Cool(s'.log, i, a) {
        if a < |s.log| {
          assert Follows(s.log, i, a) && Cool(s.log, i, a);
        } else {
          assert s'.log[i] == s.log[i] && InMap(s, s.log[i].worker, s.log[i].at);
        }
      }
      forall i | 0 <= i < |s'.log| && s'.log[i].Assigned? ensures Covered(s', s'.log[i].worker, s'.log[i].at) {
        assert s'.log[i] == s.log[i] && Covered(s, s.log[i].worker, s.log[i].at);
      }
    }
  }

  /** In runs where these steps do not overlap the cool-down is always kept. */
  lemma {:induction false} OrderlyRunsKeepCoolDown(es: seq<Event>)
    requires OrderlyFrom(START, es)
    ensures OrderlyInv(RunFrom(START, es))
  {
    if es != [] {
      var s, e := RunFrom(START, es[..|es| - 1]), es[|es| - 1];
      OrderlyRunsKeepCoolDown(es[..|es| - 1]);
      RunKeeps(es[..|es| - 1]);
      match e
      case Publish(workers, delay) => PublishIsOrderly(s, workers, delay);
      case RecordNext(k) => RecordIsOrderly(s, k);
      case Check(w, delay) => CheckIsOrderly(s, w, delay);
      case Admit(delay) => AdmitIsOrderly(s, delay);
    }
  }

  // ---------------------------------------------------------------- three runs

  lemma RunMore(es: seq<Event>, e: Event)
    ensures RunFrom(START, es + [e]) == Step(RunFrom(START, es), e)
  {
    assert (es + [e])[..|es|] == es;
  }

  lemma OneAssigned(w: Sender, t: Instant)
    ensures AssignedTo([w], t) == [Assigned(w, t)]
  {
    assert [w][..0] == [];
  }

  /** A retry publishes between the check of a heartbeat and its admission. */
  lemma PublishedAfterCheck(w: Sender)
    ensures !CoolDownKept(RunFrom(START, [Check(w, 0)] + [Publish([w], 1)] + [Admit(1)]).log)
  {
    var es := [Check(w, 0)];
    assert [] + [Check(w, 0)] == es;
    RunMore([], Check(w, 0));
    RunMore(es, Publish([w], 1));
    RunMore(es + [Publish([w], 1)], Admit(1));
    OneAssigned(w, 1);
    var log := RunFrom(START, es + [Publish([w], 1)] + [Admit(1)]).log;
    assert log == [Passed(w, 0)] + [Assigned(w, 1)] + [Admitted(w, 2, 0)];
    assert Follows(log, 1, 2) && !Cool(log, 1, 2);
  }

  /** A publication has read the clock, but not locked the map when the check does. */
  lemma RecordedAfterCheck(w: Sender)
    ensures !CoolDownKept(RunFrom(START, [Publish([w], 0)] + [Check(w, 1)] + [RecordNext(0)] + [Admit(1)]).log)
  {
    var es := [Publish([w], 0)];
    assert [] + [Publish([w], 0)] == es;
    RunMore([], Publish([w], 0));
    RunMore(es, Check(w, 1));
    RunMore(es + [Check(w, 1)], RecordNext(0));
    RunMore(es + [Check(w, 1)] + [RecordNext(0)], Admit(1));
    OneAssigned(w, 0);
    var log := RunFrom(START, es + [Check(w, 1)] + [RecordNext(0)] + [Admit(1)]).log;
    assert log == [Assigned(w, 0)] + [Passed(w, 1)] + [Recorded(w, 0)] + [Admitted(w, 2, 1)];
    assert Follows(log, 0, 3) && !Cool(log, 0, 3);
  }

  /** A slow publication records its older reading over a later one. */
  lemma RecordedOverALaterOne(w: Sender)
    ensures !CoolDownKept(RunFrom(START, [Publish([w], 0)] + [Publish([w], COOL)] + [RecordNext(1)] + [RecordNext(0)]
                                         + [Check(w, 1)] + [Admit(1)]).log)
  {
    var es := [Publish([w], 0)];
    var es' := es + [Publish([w], COOL)] + [RecordNext(1)] + [RecordNext(0)];
    assert [] + [Publish([w], 0)] == es;
    RunMore([], Publish([w], 0));
    RunMore(es, Publish([w], COOL));
    RunMore(es + [Publish([w], COOL)], RecordNext(1));
    RunMore(es + [Publish([w], COOL)] + [RecordNext(1)], RecordNext(0));
    RunMore(es', Check(w, 1));
    RunMore(es' + [Check(w, 1)], Admit(1));
    OneAssigned(w, 0);
    OneAssigned(w, COOL);
    var log := RunFrom(START, es' + [Check(w, 1)] + [Admit(1)]).log;
    assert log == [Assigned(w, 0)] + [Assigned(w, COOL)] + [Recorded(w, COOL)] + [Recorded(w, 0)]
      + [Passed(w, COOL + 1)] + [Admitted(w, COOL + 2, 4)];
    assert Follows(log, 1, 5) && !Cool(log, 1, 5);
  }
}
