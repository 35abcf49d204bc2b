/** The client's connection loop (nostr-client-plus/src/client.rs): a table of subscriptions, a queue of
    commands, and a connection that can fail at any read or write. After a reconnection every entry of
    the table is sent again, behind the commands that were already waiting. */
module ReconnectingClient {
  import opened Common
  import opened Wire
  import opened SubscriptionTable

  const RETRIES: nat := 60

  /** A subscription with the offset its `since` is moved to on a reconnection, if any. */
  datatype Subscription = Subscription(request: Request, offset: Option<Timestamp>)

  datatype Command =
    | Req(sub: Subscription)
    | Event(event: EventOnWire)
    | Close(id: Id)
    | Binary(bytes: seq<byte>)

  datatype State = State(
    table: map<Id, Subscription>,
    queue: seq<Command>,
    written: Table,  // what the messages sent on the current connection amount to
    running: bool)

  /** While the table is sent again, others may submit commands between two of its entries. */
  datatype Slot = Again(id: Id) | Other(command: Command)

  /** How an attempt to reconnect ends: after too many failures, or at some time, with the table sent again
      in the order of its hash map. */
  datatype Reconnection = GaveUp | Reconnected(time: Timestamp, slots: seq<Slot>)

  datatype Happening =
    | Submit(command: Command)                   // the user
    | Take(sent: bool, reconnection: Reconnection)  // the front command is taken and sent, or fails to be
    | SocketClosed(reconnection: Reconnection)      // a read says so
    | OtherMessage                                  // any other read

  const START := State(map[], [], map[], true)

  function OpOf(c: Command): Op {
    match c
    case Req(sub) => Put(sub.request.id, sub.request)
    case Close(id) => Delete(id)
    case _ => Skip
  }

  function Requests(table: map<Id, Subscription>): Table {
    map id | id in table :: table[id].request
  }

  function WithSince(filters: seq<FilterOnWire>, time: Timestamp): (moved: seq<FilterOnWire>)
    ensures |moved| == |filters|
  {
    if filters == [] then [] else [filters[0].(since := Some(time))] + WithSince(filters[1..], time)
  }

  /** `current_time - offset` in 64-bit arithmetic, as a release build computes it. */
  function Before(time: Timestamp, offset: Timestamp): Timestamp {
    (time - offset) % 0x1_0000_0000_0000_0000
  }

  function Refreshed(sub: Subscription, time: Timestamp): Subscription {
    match sub.offset
    case None => sub
    case Some(offset) =>
      sub.(request := Request(sub.request.id, WithSince(sub.request.filters, Before(time, offset))))
  }

  function RefreshAll(table: map<Id, Subscription>, time: Timestamp): map<Id, Subscription> {
    map id | id in table :: Refreshed(table[id], time)
  }

  /** Each key is sent again exactly once, and nothing else is. */
  ghost predicate Enumerates(slots: seq<Slot>, keys: set<Id>) {
    && (forall i :: 0 <= i < |slots| && slots[i].Again? ==> slots[i].id in keys)
    && (forall id :: id in keys ==> Again(id) in slots)
    && (forall i, j :: 0 <= i < j < |slots| && slots[i].Again? ==> slots[i] != slots[j])
  }

  function CommandOf(table: map<Id, Subscription>, slot: Slot): Command
    requires slot.Again? ==> slot.id in table
  {
    match slot
    case Again(id) => Req(table[id])
    case Other(c) => c
  }

  function Resend(table: map<Id, Subscription>, slots: seq<Slot>): seq<Command>
    requires forall i :: 0 <= i < |slots| && slots[i].Again? ==> slots[i].id in table
  {
    if slots == [] then []
    else Resend(table, slots[..|slots| - 1]) + [CommandOf(table, slots[|slots| - 1])]
  }

  /** What others submitted meanwhile. */
  function Others(slots: seq<Slot>): seq<Command> {
    if slots == [] then []
    else
      var before, last := Others(slots[..|slots| - 1]), slots[|slots| - 1];
      if last.Other? then before + [last.command] else before
  }

  ghost predicate Possible(s: State, r: Reconnection) {
    r.Reconnected? ==> Enumerates(r.slots, s.table.Keys)
  }

  /** The new connection starts with nothing written. */
  function Reconnect(s: State, r: Reconnection): State
    requires Possible(s, r)
  {
    match r
    case GaveUp => s.(written := map[], running := false)
    case Reconnected(time, slots) =>
      var table := RefreshAll(s.table, time);
      s.(table := table, written := map[], queue := s.queue + Resend(table, slots))
  }

  /** What taking the front command does before any reconnection. */
  function Perform(s: State, sent: bool): State
    requires s.queue != []
  {
    var c, s := s.queue[0], s.(queue := s.queue[1..]);
    var s := if sent then s.(written := Apply(s.written, OpOf(c))) else s;
    match c
    case Req(sub) => s.(table := s.table[sub.request.id := sub])
    case Close(id) => if sent then s.(table := s.table - {id}) else s
    case _ => s
  }

  ghost predicate CanHappen(s: State, h: Happening) {
    match h
    case Take(sent, r) => s.running && s.queue != [] ==> Possible(Perform(s, sent), r)
    case SocketClosed(r) => Possible(s, r)
    case _ => true
  }

  function Step(s: State, h: Happening): State
    requires CanHappen(s, h)
  {
    if !s.running then s
    else
      match h
      case Submit(c) => s.(queue := s.queue + [c])
      case Take(sent, r) =>
        if s.queue == [] then s
        else if sent then Perform(s, sent)
        else Reconnect(Perform(s, sent), r)
      case SocketClosed(r) => Reconnect(s, r)
      case OtherMessage => s
  }

  /** A run: every reconnection enumerates the table it finds. */
  ghost predicate Feasible(hs: seq<Happening>)
    decreases |hs|, 0
  {
    hs == [] || (Feasible(hs[..|hs| - 1]) && CanHappen(Run(hs[..|hs| - 1]), hs[|hs| - 1]))
  }

  ghost function Run(hs: seq<Happening>): State
    requires Feasible(hs)
    decreases |hs|, 1
  {
    if hs == [] then START else Step(Run(hs[..|hs| - 1]), hs[|hs| - 1])
  }

  // ---------------------------------------------------------------- convergence

  function Ops(queue: seq<Command>): seq<Op> {
    Map(OpOf, queue)
  }

  lemma OpsOfTwo(c: Command, d: Command)
    ensures Ops([c]) == [OpOf(c)] && Ops([c, d]) == [OpOf(c), OpOf(d)]
  {
  }

  ghost predicate KeyedById(table: map<Id, Subscription>) {
    forall id :: id in table ==> table[id].request.id == id
  }

  ghost predicate Within(t: Table, t': Table) {
    forall id :: id in t ==> id in t' && t'[id] == t[id]
  }

  /** What the connection will hold once the queue is drained is what the client will hold; and what it
      holds already, the client holds too. */
  ghost predicate Convergent(s: State) {
    && KeyedById(s.table)
    && Within(s.written, Requests(s.table))
    && Fold(Ops(s.queue), s.written) == Fold(Ops(s.queue), Requests(s.table))
  }

  predicate Concerns(slot: Slot, id: Id) {
    match slot
    case Again(again) => again == id
    case Other(c) => Touches(OpOf(c), id)
  }

  /** The last slot that concerns `id`. */
  function LastSlot(slots: seq<Slot>, id: Id): Option<Slot> {
    if slots == [] then None
    else if Concerns(slots[|slots| - 1], id) then Some(slots[|slots| - 1])
    else LastSlot(slots[..|slots| - 1], id)
  }

  lemma LastOnMore(ops: seq<Op>, op: Op, id: Id)
    ensures LastOn(ops + [op], id) == if Touches(op, id) then op else LastOn(ops, id)
  {
    LastOnConcat(ops, [op], id);
    assert [op][1..] == [];
  }

  lemma {:induction false} LastSlotIsConcerned(slots: seq<Slot>, id: Id)
    ensures Again(id) in slots ==> LastSlot(slots, id).Some?
    ensures LastSlot(slots, id).Some? ==> Concerns(LastSlot(slots, id).value, id) && LastSlot(slots, id).value in slots
  {
    if slots != [] {
      LastSlotIsConcerned(slots[..|slots| - 1], id);
      assert slots == slots[..|slots| - 1] + [slots[|slots| - 1]];
    }
  }

  /** The last slot that concerns an id says what resending makes of it. */
  lemma {:induction false} LastResent(table: map<Id, Subscription>, slots: seq<Slot>, id: Id)
    requires KeyedById(table) && forall i :: 0 <= i < |slots| && slots[i].Again? ==> slots[i].id in table
    ensures match LastSlot(slots, id)
      case None => LastOn(Ops(Resend(table, slots)), id) == Skip
      case Some(slot) =>
        (slot.Again? ==> slot.id in table) && LastOn(Ops(Resend(table, slots)), id) == OpOf(CommandOf(table, slot))
  {
    if slots != [] {
      var init, last := slots[..|slots| - 1], slots[|slots| - 1];
      LastResent(table, init, id);
      MapLast(OpOf, Resend(table, init), CommandOf(table, last));
      LastOnMore(Ops(Resend(table, init)), OpOf(CommandOf(table, last)), id);
    }
  }

  /** And what the commands of others make of it, unless the entry was sent again after them. */
  lemma {:induction false} LastOther(slots: seq<Slot>, id: Id)
    ensures match LastSlot(slots, id)
      case None => LastOn(Ops(Others(slots)), id) == Skip
      case Some(Other(c)) => LastOn(Ops(Others(slots)), id) == OpOf(c)
      case _ => true
  {
    if slots != [] {
      var init, last := slots[..|slots| - 1], slots[|slots| - 1];
      LastOther(init, id);
      if last.Other? {
        MapLast(OpOf, Others(init), last.command);
        LastOnMore(Ops(Others(init)), OpOf(last.command), id);
      }
    }
  }

  lemma ReconnectConverges(s: State, r: Reconnection)
    requires KeyedById(s.table) && Possible(s, r)
    ensures Convergent(Reconnect(s, r)) || r.GaveUp?
  {
    if r.Reconnected? {
      var s' := Reconnect(s, r);
      var resent := Resend(s'.table, r.slots);
      MapConcat(OpOf, s.queue, resent);
      forall id | LastOn(Ops(s'.queue), id) == Skip ensures SameAt(s'.written, Requests(s'.table), id) {
        LastResent(s'.table, r.slots, id);
        LastSlotIsConcerned(r.slots, id);
        LastOnConcat(Ops(s.queue), Ops(resent), id);
      }
      FoldsAgree(Ops(s'.queue), s'.written, Requests(s'.table));
    }
  }

  lemma SubmitConverges(s: State, c: Command)
    requires Convergent(s)
    ensures Convergent(s.(queue := s.queue + [c]))
  {
    MapConcat(OpOf, s.queue, [c]);
    assert Ops([c]) == [OpOf(c)];
    FoldConcat(Ops(s.queue), [OpOf(c)], s.written);
    FoldConcat(Ops(s.queue), [OpOf(c)], Requests(s.table));
  }

  lemma SendFollowsTable(s: State)
    requires KeyedById(s.table) && s.queue != []
    ensures KeyedById(Perform(s, true).table)
    ensures Requests(Perform(s, true).table) == Apply(Requests(s.table), OpOf(s.queue[0]))
  {
  }

  lemma ApplyWithin(t: Table, t': Table, op: Op)
    requires Within(t, t')
    ensures Within(Apply(t, op), Apply(t', op))
  {
  }

  lemma SendConverges(s: State)
    requires Convergent(s) && s.queue != []
    ensures Convergent(Perform(s, true))
  {
    var s' := Perform(s, true);
    assert Ops(s.queue)[1..] == Ops(s'.queue);
    SendFollowsTable(s);
    ApplyWithin(s.written, Requests(s.table), OpOf(s.queue[0]));
  }

  lemma StepConverges(s: State, h: Happening)
    requires s.running ==> Convergent(s)
    requires CanHappen(s, h)
    ensures Step(s, h).running ==> Convergent(Step(s, h))
  {
    if s.running {
      match h
      case Submit(c) => SubmitConverges(s, c);
      case Take(sent, r) =>
        if s.queue != [] {
          if sent { SendConverges(s); } else { ReconnectConverges(Perform(s, sent), r); }
        }
      case SocketClosed(r) => ReconnectConverges(s, r);
      case OtherMessage =>
    }
  }

  /** Over every run, whatever the user submits and wherever the connection fails: while the loop runs,
      the subscriptions written on the connection are among the client's own, they will agree once the
      queue is drained, and they do agree when it is empty. */
  lemma {:induction false} ConnectionConverges(hs: seq<Happening>)
    requires Feasible(hs)
    ensures var s := Run(hs); s.running ==> Convergent(s) && (s.queue == [] ==> s.written == Requests(s.table))
  {
    if hs != [] {
      ConnectionConverges(hs[..|hs| - 1]);
      StepConverges(Run(hs[..|hs| - 1]), hs[|hs| - 1]);
    }
  }

  // ---------------------------------------------------------------- pending commands

  lemma {:induction false} LastOnOwnId(ops: seq<Op>, queue: seq<Command>, id: Id)
    requires ops == Ops(queue)
    ensures var last := LastOn(ops, id); last.Skip? || last.id == id
  {
    if ops != [] {
      LastOnOwnId(ops[1..], queue[1..], id);
    }
  }

  /** Of the commands of `users`, the last one on any subscription of the table keeps it as it is, or comes
      after that subscription was sent again. */
  ghost predicate Harmless(users: seq<Command>, slots: seq<Slot>, table: Table) {
    forall id :: id in table ==> HarmlessAt(users, slots, table, id)
  }

  ghost predicate HarmlessAt(users: seq<Command>, slots: seq<Slot>, table: Table, id: Id)
    requires id in table
  {
    || LastOn(Ops(users), id) in {Skip, Put(id, table[id])}
    || (LastSlot(slots, id).Some? && LastSlot(slots, id).value.Other?)
  }

  /** `queue` lost no more than its front, and that only if it put nothing outside the table. */
  ghost predicate LostAtMostFront(queue: seq<Command>, rest: seq<Command>, table: Table) {
    rest == queue || (queue != [] && rest == queue[1..] && (OpOf(queue[0]).Put? ==> OpOf(queue[0]).id in table))
  }

  lemma LastOnRest(queue: seq<Command>, rest: seq<Command>, table: Table, id: Id)
    requires LostAtMostFront(queue, rest, table) && id !in table
    ensures LastOn(Ops(rest), id) == LastOn(Ops(queue), id)
         || (LastOn(Ops(rest), id).Skip? && LastOn(Ops(queue), id).Delete?)
  {
    if rest != queue { assert Ops(queue)[1..] == Ops(rest); }
  }

  /** Sending the table again behind the pending commands, at one id. */
  lemma ResentAt(table: map<Id, Subscription>, slots: seq<Slot>, queue: seq<Command>, rest: seq<Command>, id: Id)
    requires KeyedById(table) && Enumerates(slots, table.Keys) && LostAtMostFront(queue, rest, Requests(table))
    ensures var t, users := Requests(table), queue + Others(slots);
      SameAt(Fold(Ops(rest + Resend(table, slots)), map[]), Fold(Ops(users), t), id) <==>
      (id in t ==> HarmlessAt(users, slots, t, id))
  {
    var t, resent, others := Requests(table), Resend(table, slots), Others(slots);
    MapConcat(OpOf, rest, resent);
    MapConcat(OpOf, queue, others);
    LastSlotIsConcerned(slots, id);
    LastResent(table, slots, id);
    LastOther(slots, id);
    LastOnConcat(Ops(rest), Ops(resent), id);
    LastOnConcat(Ops(queue), Ops(others), id);
    LastOnOwnId(Ops(queue + others), queue + others, id);
    FoldAt(Ops(rest + resent), map[], id);
    FoldAt(Ops(queue + others), t, id);
    if id !in t { LastOnRest(queue, rest, t, id); }
  }

  lemma ResentSurvivesIff(table: map<Id, Subscription>, slots: seq<Slot>, queue: seq<Command>, rest: seq<Command>)
    requires KeyedById(table) && Enumerates(slots, table.Keys) && LostAtMostFront(queue, rest, Requests(table))
    ensures var t, users := Requests(table), queue + Others(slots);
      Fold(Ops(rest + Resend(table, slots)), map[]) == Fold(Ops(users), t) <==> Harmless(users, slots, t)
  {
    var t, users := Requests(table), queue + Others(slots);
    var after, wanted := Fold(Ops(rest + Resend(table, slots)), map[]), Fold(Ops(users), t);
    forall id ensures SameAt(after, wanted, id) <==> (id in t ==> HarmlessAt(users, slots, t, id)) {
      ResentAt(table, slots, queue, rest, id);
    }
    if after == wanted {
      forall id | id in t ensures HarmlessAt(users, slots, t, id) { assert SameAt(after, wanted, id); }
    }
    if Harmless(users, slots, t) {
      forall id ensures SameAt(after, wanted, id) {}
      SameEverywhere(after, wanted);
    }
  }

  /** What a reconnection that succeeds makes of the state. */
  lemma ReconnectResends(s: State, r: Reconnection)
    requires r.Reconnected? && Possible(s, r) && KeyedById(s.table)
    ensures var s' := Reconnect(s, r);
      && KeyedById(s'.table) && s'.table.Keys == s.table.Keys && s'.written == map[]
      && s'.queue == s.queue + Resend(s'.table, r.slots)
  {
  }

  /** Whether a step that reconnects undoes what users asked for: all their commands, the one being sent and
      those submitted meanwhile included, keep their outcome exactly when, for each subscription of the table,
      the last of them keeps it as it is or comes after it was sent again. */
  lemma PendingSurvivesIff(s: State, h: Happening)
    requires s.running && KeyedById(s.table) && CanHappen(s, h)
    requires h.SocketClosed? || (h.Take? && !h.sent && s.queue != [])
    requires h.reconnection.Reconnected?
    ensures var s', slots := Step(s, h), h.reconnection.slots;
      var table, users := Requests(s'.table), s.queue + Others(slots);
      Fold(Ops(s'.queue), s'.written) == Fold(Ops(users), table) <==> Harmless(users, slots, table)
  {
    var before := if h.Take? then Perform(s, false) else s;
    ReconnectResends(before, h.reconnection);
    ResentSurvivesIff(Step(s, h).table, h.reconnection.slots, s.queue, before.queue);
  }

  // ---------------------------------------------------------------- what is asked for again

  lemma {:induction false} MovedFilters(filters: seq<FilterOnWire>, time: Timestamp)
    ensures forall i :: 0 <= i < |filters| ==> WithSince(filters, time)[i] == filters[i].(since := Some(time))
  {
    if filters != [] { MovedFilters(filters[1..], time); }
  }

  /** How a subscription is asked for again at `time`: as it was, except that one with an offset asks for what
      was created since that long ago. An offset beyond the clock wraps around. */
  ghost predicate AskedAgain(sub: Subscription, again: Subscription, time: Timestamp) {
    && again.offset == sub.offset && again.request.id == sub.request.id
    && |again.request.filters| == |sub.request.filters|
    && forall i :: 0 <= i < |sub.request.filters| ==>
      match sub.offset
      case None => again.request.filters[i] == sub.request.filters[i]
      case Some(o) =>
        && (o <= time ==> again.request.filters[i] == sub.request.filters[i].(since := Some(time - o)))
        && (o > time ==>
             again.request.filters[i] == sub.request.filters[i].(since := Some(0x1_0000_0000_0000_0000 - (o - time))))
  }

  lemma RefreshedIsAskedAgain(sub: Subscription, time: Timestamp)
    ensures AskedAgain(sub, Refreshed(sub, time), time)
  {
    match sub.offset
    case None =>
    case Some(o) =>
      MovedFilters(sub.request.filters, Before(time, o));
      assert o <= time ==> Before(time, o) == time - o;
      assert o > time ==> Before(time, o) == 0x1_0000_0000_0000_0000 - (o - time);
  }

  lemma {:induction false} ResendAt(table: map<Id, Subscription>, slots: seq<Slot>, k: nat)
    requires k < |slots| && forall i :: 0 <= i < |slots| && slots[i].Again? ==> slots[i].id in table
    ensures |Resend(table, slots)| == |slots| && Resend(table, slots)[k] == CommandOf(table, slots[k])
  {
    if k < |slots| - 1 {
      ResendAt(table, slots[..|slots| - 1], k);
    } else if |slots| > 1 {
      ResendAt(table, slots[..|slots| - 1], 0);
    }
  }

  /** After a reconnection every entry of the table is the one to be asked for again, and stands in the queue at
      its slot behind the pending commands; the commands of others stand at theirs. */
  lemma ReconnectionAsksAgain(s: State, r: Reconnection)
    requires r.Reconnected? && Possible(s, r)
    ensures var s' := Reconnect(s, r);
      && s'.table.Keys == s.table.Keys
      && (forall id :: id in s.table ==> AskedAgain(s.table[id], s'.table[id], r.time))
      && |s'.queue| == |s.queue| + |r.slots| && s'.queue[..|s.queue|] == s.queue
      && forall k :: 0 <= k < |r.slots| ==>
        match r.slots[k]
        case Again(id) => id in s'.table && s'.queue[|s.queue| + k] == Req(s'.table[id])
        case Other(c) => s'.queue[|s.queue| + k] == c
  {
    var s' := Reconnect(s, r);
    forall id | id in s.table ensures AskedAgain(s.table[id], s'.table[id], r.time) {
      RefreshedIsAskedAgain(s.table[id], r.time);
    }
    if r.slots != [] { ResendAt(s'.table, r.slots, 0); }
    forall k | 0 <= k < |r.slots| ensures s'.queue[|s.queue| + k] == CommandOf(s'.table, r.slots[k]) {
      ResendAt(s'.table, r.slots, k);
    }
  }

  // ---------------------------------------------------------------- commands are sent in order

  /** Commands, sends that work and other messages only. */
  predicate Undisturbed(hs: seq<Happening>) {
    forall i :: 0 <= i < |hs| ==> hs[i].Submit? || hs[i].OtherMessage? || (hs[i].Take? && hs[i].sent)
  }

  function Submitted(hs: seq<Happening>): seq<Command> {
    if hs == [] then []
    else
      var before, last := Submitted(hs[..|hs| - 1]), hs[|hs| - 1];
      if last.Submit? then before + [last.command] else before
  }

  /** While nothing fails, what was sent followed by what is waiting is what was submitted, in order; and the
      connection and the table hold what the commands sent so far amount to. */
  lemma {:induction false} UndisturbedRunsAreInOrder(hs: seq<Happening>) returns (sent: seq<Command>)
    requires Feasible(hs) && Undisturbed(hs)
    ensures var s := Run(hs);
      && s.running && sent + s.queue == Submitted(hs)
      && s.written == Fold(Ops(sent), map[]) && Requests(s.table) == s.written && KeyedById(s.table)
  {
    sent := [];
    if hs != [] {
      var s, h := Run(hs[..|hs| - 1]), hs[|hs| - 1];
      sent := UndisturbedRunsAreInOrder(hs[..|hs| - 1]);
      if h.Submit? {
        Associate(sent, s.queue, [h.command]);
      } else if h.Take? && s.queue != [] {
        SendFollowsTable(s);
        MapLast(OpOf, sent, s.queue[0]);
        FoldConcat(Ops(sent), [OpOf(s.queue[0])], map[]);
        FoldOne(OpOf(s.queue[0]), s.written);
        assert s.queue == [s.queue[0]] + s.queue[1..];
        sent := sent + [s.queue[0]];
      }
    }
  }

  // ---------------------------------------------------------------- a closed subscription returns

  lemma RunMore(hs: seq<Happening>, h: Happening)
    requires Feasible(hs) && CanHappen(Run(hs), h)
    ensures Feasible(hs + [h]) && Run(hs + [h]) == Step(Run(hs), h)
  {
    assert (hs + [h])[..|hs|] == hs;
  }

  /** A subscription is made, and then its Close is submitted. */
  function Subscribed(request: Request): seq<Happening> {
    [Submit(Req(Subscription(request, None)))] + [Take(true, GaveUp)] + [Submit(Close(request.id))]
  }

  lemma AfterSubscribing(request: Request)
    ensures Feasible(Subscribed(request))
    ensures Run(Subscribed(request)) ==
      State(map[request.id := Subscription(request, None)], [Close(request.id)], map[request.id := request], true)
  {
    var first, second := Submit(Req(Subscription(request, None))), Take(true, GaveUp);
    assert Feasible([]);
    RunMore([], first);
    assert [] + [first] == [first];
    RunMore([first], second);
    RunMore([first] + [second], Submit(Close(request.id)));
  }

  /** The state from which a closed subscription comes back: it is sent again, last. */
  ghost predicate ComesBack(s: State, request: Request) {
    s.running && Fold(Ops(s.queue), s.written) == map[request.id := request]
  }

  lemma LastPutStays(ops: seq<Op>, request: Request)
    requires ops == [Put(request.id, request)] || ops == [Delete(request.id), Put(request.id, request)]
    ensures Fold(ops, map[]) == map[request.id := request]
  {
    var none: Table := map[];
    assert ops[1..] == [] || ops[1..] == [Put(request.id, request)];
    assert [Put(request.id, request)][1..] == [];
    assert Apply(none, Delete(request.id)) == none;
  }

  lemma ResendOfOne(request: Request)
    ensures var sub := Subscription(request, None);
      Resend(map[request.id := sub], [Again(request.id)]) == [Req(sub)]
  {
    var table := map[request.id := Subscription(request, None)];
    assert [Again(request.id)][..0] == [];
    assert Resend(table, []) == [];
  }

  /** A closed subscription can come back: the connection is lost while its Close is waiting, or while its
      Close is being sent. Either way draining the queue alone would have left no subscription. */
  lemma ClosedSubscriptionReturns(request: Request, time: Timestamp)
    ensures Feasible(Subscribed(request)) && var s := Run(Subscribed(request)); Fold(Ops(s.queue), s.written) == map[]
    ensures var r := Reconnected(time, [Again(request.id)]);
      forall h :: h in {SocketClosed(r), Take(false, r)} ==>
        Feasible(Subscribed(request) + [h]) && ComesBack(Run(Subscribed(request) + [h]), request)
  {
    var id, sub, r := request.id, Subscription(request, None), Reconnected(time, [Again(request.id)]);
    AfterSubscribing(request);
    OpsOfTwo(Close(id), Req(sub));
    OpsOfTwo(Req(sub), Req(sub));
    assert [Delete(id)][1..] == [];
    assert Apply(map[id := request], Delete(id)) == map[];
    assert Fold([Delete(id)], map[id := request]) == map[];
    ResendOfOne(request);
    assert RefreshAll(map[id := sub], time) == map[id := sub];
    assert Enumerates([Again(id)], {id});
    RunMore(Subscribed(request), SocketClosed(r));
    RunMore(Subscribed(request), Take(false, r));
    assert [Close(id)] + [Req(sub)] == [Close(id), Req(sub)];
    LastPutStays([Delete(id), Put(id, request)], request);
    LastPutStays([Put(id, request)], request);
  }

  // ---------------------------------------------------------------- the loop itself

  /** Commands of others as slots. */
  function AsSlots(cs: seq<Command>): (slots: seq<Slot>)
    ensures forall i :: 0 <= i < |slots| ==> slots[i].Other?
  {
    if cs == [] then [] else AsSlots(cs[..|cs| - 1]) + [Other(cs[|cs| - 1])]
  }

  lemma {:induction false} ResendOthers(table: map<Id, Subscription>, slots: seq<Slot>, cs: seq<Command>)
    requires forall i :: 0 <= i < |slots| && slots[i].Again? ==> slots[i].id in table
    ensures Resend(table, slots + AsSlots(cs)) == Resend(table, slots) + cs
  {
    if cs == [] {
      assert slots + AsSlots(cs) == slots;
    } else {
      var init, last := cs[..|cs| - 1], cs[|cs| - 1];
      var all := slots + AsSlots(init);
      ResendOthers(table, slots, init);
      assert slots + AsSlots(cs) == all + [Other(last)];
      assert (all + [Other(last)])[..|all|] == all;
      assert cs == init + [last];
    }
  }

  lemma ResendMore(table: map<Id, Subscription>, slots: seq<Slot>, cs: seq<Command>, id: Id)
    requires id in table && forall i :: 0 <= i < |slots| && slots[i].Again? ==> slots[i].id in table
    ensures Resend(table, slots + AsSlots(cs) + [Again(id)]) == Resend(table, slots) + (cs + [Req(table[id])])
  {
    var all := slots + AsSlots(cs);
    ResendOthers(table, slots, cs);
    assert (all + [Again(id)])[..|all|] == all;
    Associate(Resend(table, slots), cs, [Req(table[id])]);
  }

  lemma EnumeratesMore(slots: seq<Slot>, keys: set<Id>, cs: seq<Command>, id: Id)
    requires Enumerates(slots, keys) && id !in keys
    ensures Enumerates(slots + AsSlots(cs) + [Again(id)], keys + {id})
  {
    var all := slots + AsSlots(cs) + [Again(id)];
    assert forall i :: 0 <= i < |all| - 1 && all[i].Again? ==> i < |slots| && all[i] == slots[i];
    forall key | key in keys + {id} ensures Again(key) in all {
      if key == id { assert all[|all| - 1] == Again(id); } else { assert Again(key) in slots; }
    }
  }

  /** The table while all entries but those in `left` have been refreshed. */
  ghost function Halfway(table: map<Id, Subscription>, left: set<Id>, time: Timestamp): map<Id, Subscription> {
    map id | id in table :: if id in left then table[id] else Refreshed(table[id], time)
  }

  lemma HalfwayMore(table: map<Id, Subscription>, left: set<Id>, id: Id, time: Timestamp)
    requires id in left && id in table
    ensures Halfway(table, left, time)[id] == table[id]
    ensures Halfway(table, left - {id}, time) == Halfway(table, left, time)[id := Refreshed(table[id], time)]
  {
  }

  /** What has been sent of a table while its entries in `left` have not. */
  ghost predicate SentSoFar(table: map<Id, Subscription>, left: set<Id>, slots: seq<Slot>, sent: seq<Command>) {
    Enumerates(slots, table.Keys - left) && sent == Resend(table, slots)
  }

  /** Sending one more entry, after what others submitted. */
  lemma SentMore(table: map<Id, Subscription>, left: set<Id>, slots: seq<Slot>, sent: seq<Command>,
                 more: seq<Command>, id: Id)
    requires id in left && left <= table.Keys && SentSoFar(table, left, slots, sent)
    ensures SentSoFar(table, left - {id}, slots + AsSlots(more) + [Again(id)], sent + (more + [Req(table[id])]))
  {
    EnumeratesMore(slots, table.Keys - left, more, id);
    assert table.Keys - (left - {id}) == table.Keys - left + {id};
    ResendMore(table, slots, more, id);
  }

  /** The task behind a connected client. `written` is what the relay of the current connection has been
      sent; the program does not store it. */
  class Listener {
    var subscriptions: map<Id, Subscription>
    var commands: seq<Command>
    var needReconnect: bool
    var running: bool
    ghost var written: Table

    ghost function Snapshot(): State
      reads this
    {
      State(subscriptions, commands, written, running)
    }

    constructor ()
      ensures Snapshot() == START && !needReconnect
    {
      subscriptions, commands, needReconnect, running, written := map[], [], false, true, map[];
    }

    method SubmitCommand(c: Command)
      modifies this`commands
      ensures Snapshot() == Step(old(Snapshot()), Submit(c))
    {
      if running {
        commands := commands + [c];
      }
    }

    /** Handles the front command; `sent` is whether the socket accepts the message. */
    method TakeCommand(sent: bool)
      requires commands != [] && !needReconnect
      modifies this
      ensures Snapshot() == Perform(old(Snapshot()), sent) && needReconnect == !sent
    {
      var c := commands[0];
      commands := commands[1..];
      match c
      case Req(sub) =>
        subscriptions := subscriptions[sub.request.id := sub];
        if sent { written := Apply(written, OpOf(c)); } else { needReconnect := true; }
      case Event(_) =>
        if !sent { needReconnect := true; }
      case Close(id) =>
        if sent {
          written := Apply(written, OpOf(c));
          subscriptions := subscriptions - {id};
        } else {
          needReconnect := true;
        }
      case Binary(_) =>
        if !sent { needReconnect := true; }
    }

    /** Tries to connect up to `RETRIES` times; `connects` tells which attempts succeed. */
    method TryReconnect(connects: nat -> bool)
      requires needReconnect
      modifies this`needReconnect
      ensures !needReconnect <==> exists k: nat :: k < 60 && connects(k)
    {
      var counter := 0;
      while counter < RETRIES
        invariant counter <= RETRIES && needReconnect
        invariant forall k: nat :: k < counter ==> !connects(k)
      {
        if connects(counter) {
          needReconnect := false;
          return;
        }
        counter := counter + 1;
      }
    }

    /** Refreshes one subscription and queues it again, after what others submitted. */
    method SendAgain(id: Id, time: Timestamp, more: seq<Command>)
      requires id in subscriptions
      modifies this`subscriptions, this`commands
      ensures var sub := Refreshed(old(subscriptions)[id], time);
        subscriptions == old(subscriptions)[id := sub] && commands == old(commands) + (more + [Req(sub)])
    {
      var sub := Refreshed(subscriptions[id], time);
      subscriptions := subscriptions[id := sub];
      commands := commands + (more + [Req(sub)]);
    }

    /** Refreshes every subscription and queues it again, in whatever order the hash map yields; `others(k)` is
        what others submit just before the `k`-th entry is sent. */
    method Resubscribe(time: Timestamp, others: nat -> seq<Command>) returns (ghost slots: seq<Slot>)
      modifies this`subscriptions, this`commands
      ensures Enumerates(slots, old(subscriptions).Keys)
      ensures subscriptions == RefreshAll(old(subscriptions), time)
      ensures commands == old(commands) + Resend(subscriptions, slots)
    {
      ghost var table, moved, sent: seq<Command> := subscriptions, RefreshAll(subscriptions, time), [];
      var left, k := subscriptions.Keys, 0;
      slots := [];
      assert Halfway(table, left, time) == table;
      while left != {}
        invariant left <= table.Keys && SentSoFar(moved, left, slots, sent)
        invariant subscriptions == Halfway(table, left, time) && commands == old(commands) + sent
        decreases left
      {
        var id :| id in left;
        var more := others(k);
        HalfwayMore(table, left, id, time);
        SentMore(moved, left, slots, sent, more, id);
        SendAgain(id, time, more);
        left, k := left - {id}, k + 1;
        sent := sent + (more + [Req(subscriptions[id])]);
        slots := slots + AsSlots(more) + [Again(id)];
      }
      assert Halfway(table, {}, time) == moved;
    }

    /** The tail of an iteration: reconnecting when a read or a write asked for it. */
    method Recover(connects: nat -> bool, time: Timestamp, others: nat -> seq<Command>) returns (ghost r: Reconnection)
      requires needReconnect && running
      modifies this
      ensures Possible(old(Snapshot()), r) && Snapshot() == Reconnect(old(Snapshot()), r)
      ensures r.Reconnected? <==> exists k: nat :: k < 60 && connects(k)
      ensures running == !needReconnect == r.Reconnected?
    {
      written := map[];
      TryReconnect(connects);
      if needReconnect {
        running := false;
        r := GaveUp;
      } else {
        ghost var slots := Resubscribe(time, others);
        r := Reconnected(time, slots);
      }
    }

    /** One iteration on a command. */
    method ServeCommand(sent: bool, connects: nat -> bool, time: Timestamp, others: nat -> seq<Command>)
      returns (ghost h: Happening)
      requires running && !needReconnect && commands != []
      modifies this
      ensures h.Take? && h.sent == sent && CanHappen(old(Snapshot()), h) && Snapshot() == Step(old(Snapshot()), h)
      ensures running == !needReconnect
    {
      ghost var before := Snapshot();
      TakeCommand(sent);
      ghost var r := GaveUp;
      if needReconnect {
        r := Recover(connects, time, others);
      }
      h := Take(sent, r);
    }

    /** One iteration on a read; `closed` when the socket has no more to give. */
    method ServeRead(closed: bool, connects: nat -> bool, time: Timestamp, others: nat -> seq<Command>)
      returns (ghost h: Happening)
      requires running && !needReconnect
      modifies this
      ensures CanHappen(old(Snapshot()), h) && Snapshot() == Step(old(Snapshot()), h)
      ensures if closed then h.SocketClosed? else h == OtherMessage
      ensures running == !needReconnect
    {
      h := OtherMessage;
      if closed {
        needReconnect := true;
        ghost var r := Recover(connects, time, others);
        h := SocketClosed(r);
      }
    }
  }
}
