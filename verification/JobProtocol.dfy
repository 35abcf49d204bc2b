/** What the assigner and the aggregator agree on: single-letter tags, job types and the form of an
    ASSIGN event (nostr-client-plus/src/bin/utils.rs, job_protocol.rs, assigner.rs, aggregator.rs). */
module JobProtocol {
  import opened Common
  import opened Senders
  import opened Wire

  const NEW_JOB: uint16 := 6000
  const ALIVE: uint16 := 6001
  const ASSIGN: uint16 := 6002
  const RESULT: uint16 := 6003

  datatype JobType = PoW | Classification
  {
    function Workers(): nat {
      match this case PoW => 1 case Classification => 1
    }
  }

  function ParseJobType(name: string): Result<JobType> {
    if name == "pow" then Ok(PoW)
    else if name == "classification" then Ok(Classification)
    else Err
  }

  /** The entries whose name is `name`. */
  function Named(name: string, tags: seq<Tag>): seq<Tag> {
    if tags == [] then []
    else
      var rest := Named(name, tags[..|tags| - 1]);
      var last := tags[|tags| - 1];
      if last != [] && last[0] == name then rest + [last] else rest
  }

  predicate Malformed(tags: seq<Tag>) {
    exists i :: 0 <= i < |tags| && |tags[i]| < 2
  }

  /** The value of the only tag called `name`: an error when any entry is short or two are called so. */
  function SingleTag(name: string, tags: seq<Tag>): Result<Option<string>> {
    var named := Named(name, tags);
    if Malformed(tags) || |named| > 1 then Err
    else if named == [] then Ok(None)
    else
      NamedIn(name, tags);
      assert named[0] in named;
      Ok(Some(named[0][1]))
  }

  lemma NamedIn(name: string, tags: seq<Tag>)
    ensures forall t :: t in Named(name, tags) ==> t in tags && t != [] && t[0] == name
  {
  }

  lemma {:induction false} NamedGrows(name: string, tags: seq<Tag>, k: nat)
    requires k <= |tags|
    ensures Named(name, tags[..k]) <= Named(name, tags)
    decreases |tags|
  {
    if k < |tags| {
      NamedGrows(name, tags[..|tags| - 1], k);
      assert tags[..|tags| - 1][..k] == tags[..k];
    } else {
      assert tags[..k] == tags;
    }
  }

  lemma OnlyTag(name: string, value: string)
    ensures SingleTag(name, [[name, value]]) == Ok(Some(value))
  {
    var tag: Tag := [name, value];
    assert [tag][..0] == [];
    assert Named(name, [tag]) == [tag];
  }

  lemma {:induction false} NamedIff(name: string, tags: seq<Tag>)
    ensures Named(name, tags) == [] <==> forall i :: 0 <= i < |tags| ==> tags[i] == [] || tags[i][0] != name
  {
    if tags != [] { NamedIff(name, tags[..|tags| - 1]); }
  }

  lemma {:induction false} NamedOnce(name: string, tags: seq<Tag>, i: nat)
    requires i < |tags| && tags[i] != [] && tags[i][0] == name
    requires forall j :: 0 <= j < |tags| && j != i ==> tags[j] == [] || tags[j][0] != name
    ensures Named(name, tags) == [tags[i]]
  {
    var init := tags[..|tags| - 1];
    if i == |tags| - 1 {
      NamedIff(name, init);
    } else {
      NamedOnce(name, init, i);
    }
  }

  /** The only tag of that name, at `i`. */
  predicate OnlyAt(name: string, tags: seq<Tag>, i: int) {
    && 0 <= i < |tags| && |tags[i]| >= 2 && tags[i][0] == name
    && forall j :: 0 <= j < |tags| && j != i ==> tags[j] == [] || tags[j][0] != name
  }

  lemma {:induction false} NamedTwice(name: string, tags: seq<Tag>, i: nat, j: nat)
    requires i < j < |tags| && tags[i] != [] && tags[i][0] == name && tags[j] != [] && tags[j][0] == name
    ensures |Named(name, tags)| > 1
  {
    if j == |tags| - 1 {
      NamedIff(name, tags[..j]);
    } else {
      NamedTwice(name, tags[..|tags| - 1], i, j);
    }
  }

  /** A value is found exactly when no tag is short and just one has the name: the value is its second element.
      None is found exactly when no tag is short and none has the name. */
  lemma SingleTagIff(name: string, tags: seq<Tag>, value: string)
    ensures SingleTag(name, tags) == Ok(Some(value)) <==>
      (forall i :: 0 <= i < |tags| ==> |tags[i]| >= 2) && exists i :: OnlyAt(name, tags, i) && tags[i][1] == value
    ensures SingleTag(name, tags) == Ok(None) <==>
      forall i :: 0 <= i < |tags| ==> |tags[i]| >= 2 && tags[i][0] != name
  {
    NamedIff(name, tags);
    if !Malformed(tags) && Named(name, tags) != [] {
      var i :| 0 <= i < |tags| && tags[i] != [] && tags[i][0] == name;
      if exists j :: 0 <= j < |tags| && j != i && tags[j] != [] && tags[j][0] == name {
        var j :| 0 <= j < |tags| && j != i && tags[j] != [] && tags[j][0] == name;
        NamedTwice(name, tags, if i < j then i else j, if i < j then j else i);
      } else {
        NamedOnce(name, tags, i);
        assert OnlyAt(name, tags, i);
      }
    }
  }

  method GetSingleTagEntry(tag: char, tags: seq<Tag>) returns (result: Result<Option<string>>)
    ensures result == SingleTag([tag], tags)
  {
    var found := false;
    var matchTag := [tag];
    var value: Option<string> := None;
    var i := 0;
    while i < |tags|
      invariant 0 <= i <= |tags|
      invariant !Malformed(tags[..i])
      invariant Named(matchTag, tags[..i]) == [] <==> !found
      invariant found ==> SingleTag(matchTag, tags[..i]) == Ok(value)
      invariant !found ==> value == None
    {
      var entry := tags[i];
      assert tags[..i + 1][..i] == tags[..i];
      if |entry| < 2 {
        return Err;
      }
      if matchTag == entry[0] {
        if found {
          assert |Named(matchTag, tags[..i + 1])| > 1;
          NamedGrows(matchTag, tags, i + 1);
          return Err;
        }
        value := Some(entry[1]);
        found := true;
      }
      i := i + 1;
    }
    assert tags[..i] == tags;
    result := Ok(value);
  }

  // ---------------------------------------------------------------- the ASSIGN event

  function WorkerTags(workers: seq<Sender>): seq<Tag> {
    if workers == [] then []
    else WorkerTags(workers[..|workers| - 1]) + [["p", HexEncode(workers[|workers| - 1].ToBytes())]]
  }

  /** The tags the assigner puts on the event that gives `job` to `workers`. */
  method AssignTags(workers: seq<Sender>, jobId: Bytes32) returns (tags: seq<Tag>)
    ensures tags == [JobTag(jobId)] + WorkerTags(workers)
  {
    tags := [["e", HexEncode(jobId)]];
    for i := 0 to |workers|
      invariant tags == [["e", HexEncode(jobId)]] + WorkerTags(workers[..i])
    {
      assert workers[..i + 1][..i] == workers[..i];
      tags := tags + [["p", HexEncode(workers[i].ToBytes())]];
    }
    assert workers[..|workers|] == workers;
  }

  /** The assignee test of `validate_result_event`: does the one `p` tag name `sender`? */
  function AssigneeCheck(tags: seq<Tag>, sender: Sender): Outcome<bool> {
    match SingleTag("p", tags)
    case Ok(Some(assignee)) =>
      (match HexDecode(assignee)
       case Some(bytes) =>
         (match FromBytes(bytes)
          case Panic => Panic
          case Return(Some(account)) => Return(account == sender)
          case Return(None) => Return(false))
       case None => Return(false))
    case _ => Return(false)
  }

  /** The only `p` tag holds an identity that is cut off. */
  predicate CutOff(tags: seq<Tag>) {
    match SingleTag("p", tags)
    case Ok(Some(assignee)) => (match HexDecode(assignee) case Some(bytes) => TooShort(bytes) case None => false)
    case _ => false
  }

  /** The assignee test panics exactly on such tags, whoever the sender is. */
  lemma AssigneeCheckPanicsIff(tags: seq<Tag>, sender: Sender)
    ensures AssigneeCheck(tags, sender) == Panic <==> CutOff(tags)
  {
    match SingleTag("p", tags)
    case Ok(Some(assignee)) => if HexDecode(assignee).Some? { DecodePanicsIff(HexDecode(assignee).value); }
    case _ =>
  }

  function JobTag(jobId: Bytes32): Tag { ["e", HexEncode(jobId)] }

  lemma {:induction false} NamedWorkerTags(workers: seq<Sender>, jobId: Bytes32)
    ensures var tags := [JobTag(jobId)] + WorkerTags(workers);
      Named("p", tags) == WorkerTags(workers) && |WorkerTags(workers)| == |workers| && !Malformed(tags)
  {
    var tags := [JobTag(jobId)] + WorkerTags(workers);
    if workers == [] {
      assert tags[..|tags| - 1] == [];
    } else {
      var fewer := workers[..|workers| - 1];
      NamedWorkerTags(fewer, jobId);
      var last: Tag := ["p", HexEncode(workers[|workers| - 1].ToBytes())];
      assert tags == [JobTag(jobId)] + WorkerTags(fewer) + [last];
      assert tags[..|tags| - 1] == [JobTag(jobId)] + WorkerTags(fewer);
      assert last[0] == "p" && |last| == 2;
    }
  }

  /** The tags of an ASSIGN event: the job's id, then one worker a tag, in order, all in hexadecimal. */
  lemma {:induction false} AssignmentTagAt(workers: seq<Sender>, jobId: Bytes32, k: nat)
    requires k < |workers|
    ensures var tags := [JobTag(jobId)] + WorkerTags(workers);
      && |tags| == |workers| + 1 && tags[0] == ["e", HexEncode(jobId)]
      && tags[k + 1] == ["p", HexEncode(workers[k].ToBytes())]
  {
    var init := workers[..|workers| - 1];
    if k < |init| {
      AssignmentTagAt(init, jobId, k);
    } else if init != [] {
      AssignmentTagAt(init, jobId, 0);
    } else {
      assert WorkerTags(init) == [];
    }
  }

  lemma {:induction false} NamedWorkersAreNoJob(workers: seq<Sender>)
    ensures Named("e", WorkerTags(workers)) == []
  {
    if workers != [] {
      var init := workers[..|workers| - 1];
      NamedWorkersAreNoJob(init);
      assert WorkerTags(workers)[..|WorkerTags(workers)| - 1] == WorkerTags(init);
    }
  }

  /** And the job can be read back from it, for any workers. */
  lemma AssignmentNamesItsJob(workers: seq<Sender>, jobId: Bytes32)
    ensures SingleTag("e", [JobTag(jobId)] + WorkerTags(workers)) == Ok(Some(HexEncode(jobId)))
  {
    var tags := [JobTag(jobId)] + WorkerTags(workers);
    NamedWorkerTags(workers, jobId);
    NamedIff("e", WorkerTags(workers));
    NamedWorkersAreNoJob(workers);
    assert forall j :: 0 < j < |tags| ==> tags[j] == WorkerTags(workers)[j - 1];
    NamedOnce("e", tags, 0);
  }

  /** Assigner and aggregator agree: an ASSIGN event passes the aggregator's assignee check for a
      sender exactly when it was built for that sender alone. It never panics. */
  lemma AssignmentNamesItsOnlyWorker(workers: seq<Sender>, jobId: Bytes32, sender: Sender)
    ensures AssigneeCheck([JobTag(jobId)] + WorkerTags(workers), sender) == Return(workers == [sender])
  {
    var tags := [JobTag(jobId)] + WorkerTags(workers);
    NamedWorkerTags(workers, jobId);
    if |workers| == 1 {
      var w := workers[0];
      assert workers == [w] && WorkerTags([]) == [];
      assert workers[..0] == [];
      assert WorkerTags(workers) == [["p", HexEncode(w.ToBytes())]];
      HexRoundTrip(w.ToBytes());
      DecodeEncoded(w, []);
      assert w.ToBytes() + [] == w.ToBytes();
    }
  }
}
