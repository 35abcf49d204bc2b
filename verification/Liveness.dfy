/** Pings, pongs and activity of one relay connection (nostr-relay/src/ws/server.rs): how long a peer
    that has gone silent can keep its connection. */
module Liveness {
  import opened Common

  const PING_INTERVAL: nat := 300 * SECOND
  const PONG_TIMEOUT: nat := 20 * SECOND

  datatype State = State(
    now: Instant,
    nextTick: Instant,      // of the ping interval
    deadline: Instant,      // of the pong timer; it matters only while a pong is awaited
    lastActivity: Instant,
    waitingForPong: bool,
    open: bool)

  datatype What =
    | Pong                 // a frame that answers a ping
    | OtherFrame           // text, binary or ping
    | Ended                // a close frame or the end of the stream
    | Tick(sendable: bool) // the interval is due; a ping, if sent, may fail to be
    | Timeout              // the pong timer is due
    | Nothing              // a read error, outgoing messages, or just time passing

  datatype Event = Event(at: Instant, what: What)

  /** The interval ticks at once, then every `PING_INTERVAL`. */
  const START := State(0, 0, PONG_TIMEOUT, 0, false, true)

  /** Timers fire when due: time does not pass a timer without its event. */
  predicate Feasible(s: State, e: Event) {
    && s.now <= e.at <= s.nextTick && (s.waitingForPong ==> e.at <= s.deadline)
    && (e.what.Tick? ==> e.at == s.nextTick)
    && (e.what.Timeout? ==> s.waitingForPong && e.at == s.deadline)
  }

  predicate Pings(s: State, e: Event) {
    s.open && e.what.Tick? && e.at - s.lastActivity >= PING_INTERVAL
  }

  function Step(s: State, e: Event): State {
    var s' := s.(now := e.at);
    if !s.open then s'
    else
      match e.what
      case Pong => s'.(lastActivity := e.at, waitingForPong := false)
      case OtherFrame => s'.(lastActivity := e.at)
      case Ended => s'.(open := false)
      case Timeout => s'.(open := false)
      case Nothing => s'
      case Tick(sendable) =>
        var s' := s'.(nextTick := s.nextTick + PING_INTERVAL);
        if e.at - s.lastActivity < PING_INTERVAL then s'
        else if !sendable then s'.(open := false)
        else s'.(waitingForPong := true, deadline := e.at + PONG_TIMEOUT, lastActivity := e.at)
  }

  /** A feasible run of an open connection; it ends with the connection. */
  ghost predicate FeasibleFrom(s: State, es: seq<Event>) {
    es == [] || (FeasibleFrom(s, es[..|es| - 1]) && RunFrom(s, es[..|es| - 1]).open
                 && Feasible(RunFrom(s, es[..|es| - 1]), es[|es| - 1]))
  }

  function RunFrom(s: State, es: seq<Event>): State {
    if es == [] then s else Step(RunFrom(s, es[..|es| - 1]), es[|es| - 1])
  }

  ghost predicate Inv(s: State) {
    s.open ==>
      && s.lastActivity <= s.now <= s.nextTick <= s.now + PING_INTERVAL
      && (s.waitingForPong ==> s.now <= s.deadline < s.nextTick && s.deadline <= s.now + PONG_TIMEOUT)
  }

  lemma StepKeeps(s: State, e: Event)
    requires Inv(s) && s.open && Feasible(s, e)
    ensures Inv(Step(s, e))
    ensures Pings(s, e) ==> !s.waitingForPong
  {
  }

  lemma {:induction false} RunKeeps(s: State, es: seq<Event>)
    requires Inv(s) && FeasibleFrom(s, es)
    ensures Inv(RunFrom(s, es))
  {
    if es != [] {
      RunKeeps(s, es[..|es| - 1]);
      StepKeeps(RunFrom(s, es[..|es| - 1]), es[|es| - 1]);
    }
  }

  /** No ping is ever sent while a pong is awaited. */
  lemma NoPingWhileWaiting(es: seq<Event>, e: Event)
    requires FeasibleFrom(START, es + [e])
    ensures Pings(RunFrom(START, es), e) ==> !RunFrom(START, es).waitingForPong
  {
    assert (es + [e])[..|es|] == es;
    RunKeeps(START, es);
    StepKeeps(RunFrom(START, es), e);
  }

  // ---------------------------------------------------------------- silence

  predicate Silent(es: seq<Event>) {
    forall i :: 0 <= i < |es| ==> !es[i].what.Pong? && !es[i].what.OtherFrame?
  }

  /** Silent since `a`: waiting for a pong, or at most two ticks from a ping. */
  ghost predicate RunningOut(s: State, a: Instant) {
    s.open ==>
      && (s.waitingForPong ==> s.now <= s.deadline < a + 2 * PING_INTERVAL + PONG_TIMEOUT)
      && (!s.waitingForPong ==> s.lastActivity <= a && s.now <= s.nextTick < a + 2 * PING_INTERVAL)
  }

  lemma {:induction false} SilentRunsOut(s: State, es: seq<Event>)
    requires Inv(s) && FeasibleFrom(s, es) && Silent(es)
    ensures RunningOut(RunFrom(s, es), s.now)
  {
    if es != [] {
      SilentRunsOut(s, es[..|es| - 1]);
      RunKeeps(s, es[..|es| - 1]);
    }
  }

  /** The bound: whatever happened before, a peer that sends no frame from some moment on has lost its
      connection before two ping intervals and a pong timeout have passed. */
  lemma SilentPeersAreDisconnected(before: seq<Event>, after: seq<Event>)
    requires FeasibleFrom(START, before) && FeasibleFrom(RunFrom(START, before), after) && Silent(after)
    ensures var a, s := RunFrom(START, before).now, RunFrom(RunFrom(START, before), after);
      s.open ==> s.now < a + 620_000_000_000
  {
    RunKeeps(START, before);
    SilentRunsOut(RunFrom(START, before), after);
  }

  lemma RunOfOne(s: State, e: Event)
    requires s.open && Feasible(s, e)
    ensures FeasibleFrom(s, [e]) && RunFrom(s, [e]) == Step(s, e)
  {
    assert [e][..0] == [];
    assert FeasibleFrom(s, []) && RunFrom(s, []) == s;
  }

  lemma RunOfMore(s: State, es: seq<Event>, e: Event)
    requires FeasibleFrom(s, es) && RunFrom(s, es).open && Feasible(RunFrom(s, es), e)
    ensures FeasibleFrom(s, es + [e]) && RunFrom(s, es + [e]) == Step(RunFrom(s, es), e)
  {
  }

  /** The timer that is due next, at the time it is due. */
  function NextTimer(s: State): Event {
    if s.waitingForPong then Event(s.deadline, Timeout) else Event(s.nextTick, Tick(true))
  }

  /** Time is never stuck: on every open connection the next timer can fire, and when it does the connection
      closes, or a pong is awaited, or the idle interval is over at the following tick. */
  lemma TimersCanFire(s: State)
    requires Inv(s) && s.open
    ensures Feasible(s, NextTimer(s))
    ensures var s' := Step(s, NextTimer(s));
      && Inv(s') && (s.waitingForPong ==> !s'.open)
      && (!s.waitingForPong ==> s'.waitingForPong || s'.nextTick - s'.lastActivity >= PING_INTERVAL)
  {
  }

  /** So the bound is met by runs that end: left to its timers alone, an open connection is closed. */
  lemma SilenceEnds(s: State) returns (es: seq<Event>)
    requires Inv(s) && s.open
    ensures FeasibleFrom(s, es) && Silent(es) && |es| <= 3 && !RunFrom(s, es).open
  {
    var e := NextTimer(s);
    TimersCanFire(s);
    RunOfOne(s, e);
    es := [e];
    var t := Step(s, e);
    if t.open {
      var f := NextTimer(t);
      TimersCanFire(t);
      RunOfMore(s, es, f);
      es := es + [f];
      var u := Step(t, f);
      if u.open {
        TimersCanFire(u);
        RunOfMore(s, es, NextTimer(u));
        es := es + [NextTimer(u)];
      }
    }
  }

  /** And any silent run of an open connection can go on until the connection is closed, which the bound says
      is before two ping intervals and a pong timeout are over. */
  lemma SilentRunsCanEnd(before: seq<Event>, after: seq<Event>) returns (more: seq<Event>)
    requires FeasibleFrom(START, before) && FeasibleFrom(RunFrom(START, before), after) && Silent(after)
    requires RunFrom(RunFrom(START, before), after).open
    ensures FeasibleFrom(RunFrom(RunFrom(START, before), after), more) && Silent(more)
    ensures !RunFrom(RunFrom(RunFrom(START, before), after), more).open
  {
    RunKeeps(START, before);
    RunKeeps(RunFrom(START, before), after);
    more := SilenceEnds(RunFrom(RunFrom(START, before), after));
  }

  /** The bound is tight to the nanosecond: some silent peer keeps its connection until just before it. */
  lemma TheBoundIsTight() returns (before: seq<Event>, after: seq<Event>)
    ensures FeasibleFrom(START, before) && FeasibleFrom(RunFrom(START, before), after) && Silent(after)
    ensures var a, s := RunFrom(START, before).now, RunFrom(RunFrom(START, before), after);
      s.open && s.now == a + 620_000_000_000 - 1
  {
    var e0, e1 := Event(0, Tick(true)), Event(1, OtherFrame);
    RunOfOne(START, e0);
    RunOfMore(START, [e0], e1);
    before := [e0] + [e1];
    var s := RunFrom(START, before);
    var f0, f1, f2 := Event(PING_INTERVAL, Tick(true)), Event(2 * PING_INTERVAL, Tick(true)),
      Event(2 * PING_INTERVAL + PONG_TIMEOUT, Nothing);
    RunOfOne(s, f0);
    RunOfMore(s, [f0], f1);
    RunOfMore(s, [f0] + [f1], f2);
    after := [f0] + [f1] + [f2];
  }

  // ---------------------------------------------------------------- timeouts are deserved

  /** The event at `i` sent the ping that is still unanswered. */
  ghost predicate Unanswered(es: seq<Event>, i: int) {
    && 0 <= i < |es| && Pings(RunFrom(START, es[..i]), es[i])
    && forall j :: i < j < |es| ==> !es[j].what.Pong?
  }

  lemma UnansweredStays(es: seq<Event>, e: Event, i: int)
    requires Unanswered(es, i) && !e.what.Pong?
    ensures Unanswered(es + [e], i)
  {
    assert (es + [e])[..i] == es[..i];
  }

  lemma {:induction false} WaitingMeansUnanswered(es: seq<Event>)
    requires FeasibleFrom(START, es)
    ensures var s := RunFrom(START, es);
      s.open && s.waitingForPong ==> exists i :: Unanswered(es, i) && s.deadline == es[i].at + PONG_TIMEOUT
  {
    if es != [] {
      var before, e := es[..|es| - 1], es[|es| - 1];
      var s, s' := RunFrom(START, before), RunFrom(START, es);
      WaitingMeansUnanswered(before);
      assert es == before + [e];
      if s'.open && s'.waitingForPong {
        if Pings(s, e) {
          assert Unanswered(es, |before|);
        } else {
          var i :| Unanswered(before, i) && s.deadline == before[i].at + PONG_TIMEOUT;
          UnansweredStays(before, e, i);
          assert Unanswered(es, i) && s'.deadline == es[i].at + PONG_TIMEOUT;
        }
      }
    }
  }

  /** A connection is closed for want of a pong only when the last ping was sent exactly the timeout ago
      and no pong has come since. */
  lemma TimeoutsAreDeserved(es: seq<Event>, e: Event)
    requires FeasibleFrom(START, es + [e]) && e.what.Timeout?
    ensures exists i :: Unanswered(es, i) && e.at == es[i].at + PONG_TIMEOUT
  {
    assert (es + [e])[..|es|] == es;
    WaitingMeansUnanswered(es);
  }

  // ---------------------------------------------------------------- an unanswered ping

  /** Conversely, while a ping is unanswered a pong is awaited, until 20 seconds after the ping, whatever other
      frames come. */
  lemma {:induction false} UnansweredMeansWaiting(es: seq<Event>, i: nat)
    requires FeasibleFrom(START, es) && Unanswered(es, i) && RunFrom(START, es).open
    ensures var s := RunFrom(START, es);
      s.waitingForPong && s.deadline == es[i].at + 20_000_000_000 && s.now <= s.deadline
  {
    var init, e := es[..|es| - 1], es[|es| - 1];
    assert es[..i] == init[..i];
    if i < |init| {
      assert es[i] == init[i] && Unanswered(init, i);
      UnansweredMeansWaiting(init, i);
      assert es == init + [e];
      NoPingWhileWaiting(init, e);
    }
  }

  // ---------------------------------------------------------------- activity

  /** The time of the last frame that came or ping that was sent, or of the start. A tick sends a ping when
      there was none of either for 300 seconds. */
  function LastSeen(es: seq<Event>): Instant {
    if es == [] then 0
    else
      var before, e := LastSeen(es[..|es| - 1]), es[|es| - 1];
      if e.what.Pong? || e.what.OtherFrame? then e.at
      else if e.what.Tick? && e.at - before >= 300_000_000_000 then e.at
      else before
  }

  lemma {:induction false} ActivityIsLastSeen(es: seq<Event>)
    requires FeasibleFrom(START, es)
    ensures RunFrom(START, es).open ==> RunFrom(START, es).lastActivity == LastSeen(es)
  {
    if es != [] { ActivityIsLastSeen(es[..|es| - 1]); }
  }

  /** Exactly which events send a ping, and which close the connection: its end, the timeout, and a ping that
      cannot be sent. */
  lemma EventsThatPingOrClose(es: seq<Event>, e: Event)
    requires FeasibleFrom(START, es + [e])
    ensures Pings(RunFrom(START, es), e) <==> e.what.Tick? && e.at - LastSeen(es) >= 300_000_000_000
    ensures RunFrom(START, es + [e]).open <==>
      !e.what.Ended? && !e.what.Timeout? && (e.what.Tick? && e.at - LastSeen(es) >= 300_000_000_000 ==> e.what.sendable)
  {
    assert (es + [e])[..|es|] == es;
    ActivityIsLastSeen(es);
  }

  function Ticks(es: seq<Event>): nat {
    if es == [] then 0 else Ticks(es[..|es| - 1]) + if es[|es| - 1].what.Tick? then 1 else 0
  }

  /** The interval ticks at the start and every 300 seconds from then on. */
  lemma {:induction false} TicksAreRegular(es: seq<Event>)
    requires FeasibleFrom(START, es)
    ensures RunFrom(START, es).open ==> RunFrom(START, es).nextTick == 300_000_000_000 * Ticks(es)
  {
    if es != [] { TicksAreRegular(es[..|es| - 1]); }
  }

  // ---------------------------------------------------------------- the loop

  class Connection {
    var now: Instant
    var nextTick: Instant
    var pongTimer: Instant
    var lastActivity: Instant
    var waitingForPong: bool
    var open: bool

    ghost function Snapshot(): State
      reads this
    {
      State(now, nextTick, pongTimer, lastActivity, waitingForPong, open)
    }

    constructor ()
      ensures Snapshot() == START
    {
      now, nextTick, pongTimer, lastActivity, waitingForPong, open := 0, 0, PONG_TIMEOUT, 0, false, true;
    }

    method OnFrame(at: Instant, isPong: bool)
      requires open
      modifies this
      ensures Snapshot() == Step(old(Snapshot()), Event(at, if isPong then Pong else OtherFrame))
    {
      now := at;
      lastActivity := at;
      if isPong {
        waitingForPong := false;
      }
    }

    method OnEnd(at: Instant)
      requires open
      modifies this
      ensures Snapshot() == Step(old(Snapshot()), Event(at, Ended))
    {
      now := at;
      open := false;
    }

    method OnPongTimeout(at: Instant)
      requires open && waitingForPong
      modifies this
      ensures Snapshot() == Step(old(Snapshot()), Event(at, Timeout))
    {
      now := at;
      open := false;
    }

    /** The interval ticks: a ping after a whole interval of inactivity. */
    method OnTick(at: Instant, sendable: bool)
      requires open
      modifies this
      ensures Snapshot() == Step(old(Snapshot()), Event(at, Tick(sendable)))
    {
      now := at;
      nextTick := nextTick + PING_INTERVAL;
      if at - lastActivity >= PING_INTERVAL {
        if !sendable {
          open := false;
          return;
        }
        waitingForPong := true;
        pongTimer := at + PONG_TIMEOUT;
        lastActivity := at;
      }
    }
  }
}
