/** The client and the relay together: messages travel on the current connection and are handled in
    order; a new connection starts with none under way and an empty table at the relay. */
module ClientAndRelay {
  import opened SubscriptionTable
  import opened ReconnectingClient
  import RelaySubscriptions

  datatype System = System(client: State, wire: seq<Op>, relay: Table)

  datatype SystemEvent = ClientDoes(happening: Happening) | RelayReads

  const QUIET := System(START, [], map[])

  predicate Resets(s: State, h: Happening) {
    s.running && match h
      case Take(sent, _) => s.queue != [] && !sent
      case SocketClosed(_) => true
      case _ => false
  }

  predicate Sends(s: State, h: Happening) {
    s.running && h.Take? && h.sent && s.queue != []
  }

  ghost predicate CanOccur(y: System, e: SystemEvent) {
    e.ClientDoes? ==> CanHappen(y.client, e.happening)
  }

  function SystemStep(y: System, e: SystemEvent): System
    requires CanOccur(y, e)
  {
    match e
    case RelayReads =>
      if y.wire == [] then y
      else y.(wire := y.wire[1..], relay := RelaySubscriptions.Receive(y.relay, y.wire[0]))
    case ClientDoes(h) =>
      var client := Step(y.client, h);
      if Resets(y.client, h) then System(client, [], map[])
      else if Sends(y.client, h) then System(client, y.wire + [OpOf(y.client.queue[0])], y.relay)
      else System(client, y.wire, y.relay)
  }

  ghost predicate FeasibleSystem(es: seq<SystemEvent>)
    decreases |es|, 0
  {
    es == [] || (FeasibleSystem(es[..|es| - 1]) && CanOccur(SystemRun(es[..|es| - 1]), es[|es| - 1]))
  }

  ghost function SystemRun(es: seq<SystemEvent>): System
    requires FeasibleSystem(es)
    decreases |es|, 1
  {
    if es == [] then QUIET else SystemStep(SystemRun(es[..|es| - 1]), es[|es| - 1])
  }

  /** The relay has room for such a table. */
  ghost predicate Fits(t: Table) {
    |t| <= RelaySubscriptions.MAX_SUBS && RelaySubscriptions.Keyed(t)
  }

  /** The client's own table always was such a table. */
  ghost predicate AlwaysFit(es: seq<SystemEvent>)
    requires FeasibleSystem(es)
  {
    Fits(Requests(SystemRun(es).client.table)) && (es == [] || AlwaysFit(es[..|es| - 1]))
  }

  /** Every table the relay passes through while it catches up fits. */
  ghost predicate CatchesUp(wire: seq<Op>, relay: Table) {
    forall k :: 0 <= k <= |wire| ==> Fits(Fold(wire[..k], relay))
  }

  ghost predicate Agreeing(y: System) {
    y.client.running ==>
      Convergent(y.client) && CatchesUp(y.wire, y.relay) && Fold(y.wire, y.relay) == y.client.written
  }

  lemma FittingIsAccepted(t: Table, op: Op)
    requires Fits(Apply(t, op))
    requires op.Put? ==> op.request.id == op.id
    ensures RelaySubscriptions.Receive(t, op) == Apply(t, op)
  {
    if op.Put? {
      RelaySubscriptions.SubscribeIsUpdate(t, op.request);
      assert op.id in Apply(t, op);
    }
  }

  lemma ReadingCatchesUp(wire: seq<Op>, relay: Table)
    requires wire != [] && CatchesUp(wire, relay)
    ensures Fits(Apply(relay, wire[0]))
    ensures CatchesUp(wire[1..], Apply(relay, wire[0]))
  {
    FoldOne(wire[0], relay);
    assert wire[..1] == [wire[0]];
    forall k | 0 <= k <= |wire[1..]| ensures Fits(Fold(wire[1..][..k], Apply(relay, wire[0]))) {
      assert wire[..k + 1][1..] == wire[1..][..k];
      assert Fits(Fold(wire[..k + 1], relay));
    }
  }

  lemma SendingCatchesUp(wire: seq<Op>, relay: Table, op: Op)
    requires CatchesUp(wire, relay) && Fits(Apply(Fold(wire, relay), op))
    ensures CatchesUp(wire + [op], relay) && Fold(wire + [op], relay) == Apply(Fold(wire, relay), op)
  {
    FoldConcat(wire, [op], relay);
    FoldOne(op, Fold(wire, relay));
    forall k | 0 <= k <= |wire + [op]| ensures Fits(Fold((wire + [op])[..k], relay)) {
      if k <= |wire| {
        assert (wire + [op])[..k] == wire[..k];
      } else {
        assert (wire + [op])[..k] == wire + [op];
      }
    }
  }

  lemma WithinFits(t: Table, t': Table)
    requires Within(t, t') && Fits(t')
    ensures Fits(t)
  {
    assert t.Keys <= t'.Keys;
    CardinalityOfSubset(t.Keys, t'.Keys);
    assert |t| == |t.Keys| && |t'| == |t'.Keys|;
    forall id | id in t ensures t[id].id == id && |id| <= RelaySubscriptions.MAX_SUBSCRIPTION_ID_LEN {
      assert id in t' && t'[id] == t[id];
    }
  }

  lemma {:induction false} CardinalityOfSubset<T>(a: set<T>, b: set<T>)
    requires a <= b
    ensures |a| <= |b|
  {
    if a != {} {
      var x :| x in a;
      CardinalityOfSubset(a - {x}, b - {x});
    }
  }

  /** Messages on the wire name the id of their request. */
  ghost predicate Labelled(wire: seq<Op>) {
    forall i :: 0 <= i < |wire| && wire[i].Put? ==> wire[i].request.id == wire[i].id
  }

  lemma StartingFits()
    ensures CatchesUp([], map[]) && Fold([], map[]) == map[]
  {
  }

  lemma RelayStepAgrees(y: System)
    requires Agreeing(y) && Labelled(y.wire) && y.wire != []
    ensures Agreeing(SystemStep(y, RelayReads)) && Labelled(SystemStep(y, RelayReads).wire)
  {
    if y.client.running {
      ReadingCatchesUp(y.wire, y.relay);
      FittingIsAccepted(y.relay, y.wire[0]);
    }
  }

  /** What a step of the client does to the connection. */
  lemma WrittenAfter(s: State, h: Happening)
    requires CanHappen(s, h)
    ensures var s' := Step(s, h);
      && (Resets(s, h) ==> s'.written == map[])
      && (Sends(s, h) ==> s'.running && s'.written == Apply(s.written, OpOf(s.queue[0])))
      && (!Resets(s, h) && !Sends(s, h) ==> s'.written == s.written && s'.running == s.running)
  {
  }

  lemma AfterSending(client: State, client': State, wire: seq<Op>, relay: Table, op: Op)
    requires CatchesUp(wire, relay) && Fold(wire, relay) == client.written
    requires client'.written == Apply(client.written, op)
    requires Convergent(client') && Fits(Requests(client'.table))
    ensures CatchesUp(wire + [op], relay) && Fold(wire + [op], relay) == client'.written
  {
    WithinFits(client'.written, Requests(client'.table));
    SendingCatchesUp(wire, relay, op);
  }

  lemma ClientStepAgrees(y: System, h: Happening)
    requires Agreeing(y) && CanHappen(y.client, h)
    requires Fits(Requests(Step(y.client, h).table))
    ensures Agreeing(SystemStep(y, ClientDoes(h)))
  {
    StepConverges(y.client, h);
    WrittenAfter(y.client, h);
    var client := Step(y.client, h);
    if Resets(y.client, h) {
      StartingFits();
    } else if Sends(y.client, h) {
      AfterSending(y.client, client, y.wire, y.relay, OpOf(y.client.queue[0]));
    }
  }

  lemma SystemStepAgrees(y: System, e: SystemEvent)
    requires Agreeing(y) && Labelled(y.wire) && CanOccur(y, e)
    requires Fits(Requests(SystemStep(y, e).client.table))
    ensures Agreeing(SystemStep(y, e)) && Labelled(SystemStep(y, e).wire)
  {
    match e
    case RelayReads => if y.wire != [] { RelayStepAgrees(y); }
    case ClientDoes(h) =>
      ClientStepAgrees(y, h);
  }

  lemma {:induction false} SystemAgrees(es: seq<SystemEvent>)
    requires FeasibleSystem(es) && AlwaysFit(es)
    ensures Agreeing(SystemRun(es)) && Labelled(SystemRun(es).wire)
  {
    if es == [] {
      StartingFits();
      assert Requests(map[]) == map[];
    } else {
      SystemAgrees(es[..|es| - 1]);
      SystemStepAgrees(SystemRun(es[..|es| - 1]), es[|es| - 1]);
    }
  }

  /** Convergence of the whole system: for every run with any commands, send failures, reconnections and
      delays, as long as the client's table never outgrew what a relay accepts, once the queue and the
      wire are empty the relay's table is the client's. */
  lemma RelayEndsUpWithTheClientsTable(es: seq<SystemEvent>)
    requires FeasibleSystem(es) && AlwaysFit(es)
    ensures var y := SystemRun(es);
      y.client.running && y.client.queue == [] && y.wire == [] ==> y.relay == Requests(y.client.table)
  {
    SystemAgrees(es);
  }

  // ---------------------------------------------------------------- the system comes to rest

  lemma SystemRunMore(es: seq<SystemEvent>, e: SystemEvent)
    requires FeasibleSystem(es) && CanOccur(SystemRun(es), e)
    ensures FeasibleSystem(es + [e]) && SystemRun(es + [e]) == SystemStep(SystemRun(es), e)
  {
    assert (es + [e])[..|es|] == es;
  }

  /** Sending what waits at the client, while nothing fails. */
  lemma {:induction false} QueueDrains(es: seq<SystemEvent>) returns (all: seq<SystemEvent>)
    requires FeasibleSystem(es) && SystemRun(es).client.running
    ensures FeasibleSystem(all) && es <= all && |all| == |es| + |SystemRun(es).client.queue|
    ensures SystemRun(all).client.running && SystemRun(all).client.queue == []
    decreases |SystemRun(es).client.queue|
  {
    all := es;
    if SystemRun(es).client.queue != [] {
      var e := ClientDoes(Take(true, GaveUp));
      SystemRunMore(es, e);
      all := QueueDrains(es + [e]);
    }
  }

  lemma {:induction false} WireDrains(es: seq<SystemEvent>) returns (all: seq<SystemEvent>)
    requires FeasibleSystem(es)
    ensures FeasibleSystem(all) && es <= all && |all| == |es| + |SystemRun(es).wire|
    ensures SystemRun(all).client == SystemRun(es).client && SystemRun(all).wire == []
    decreases |SystemRun(es).wire|
  {
    all := es;
    if SystemRun(es).wire != [] {
      SystemRunMore(es, RelayReads);
      all := WireDrains(es + [RelayReads]);
    }
  }

  /** From every state of a running client, some more steps without failures bring the system to rest; and then
      the relay's table is the client's, if that never outgrew what a relay accepts. */
  lemma SystemComesToRest(es: seq<SystemEvent>) returns (all: seq<SystemEvent>)
    requires FeasibleSystem(es) && SystemRun(es).client.running
    ensures FeasibleSystem(all) && es <= all
    ensures var y := SystemRun(all);
      && y.client.running && y.client.queue == [] && y.wire == []
      && (AlwaysFit(all) ==> y.relay == Requests(y.client.table))
  {
    var sent := QueueDrains(es);
    all := WireDrains(sent);
    if AlwaysFit(all) { RelayEndsUpWithTheClientsTable(all); }
  }
}
