/**
 The server-sent-events fan-out hub (omokoda-ops/sse.go) as a state machine of interleaved atomic steps:
 one relay goroutine broadcasting lines, and any number of client handlers, each owning one channel.
 A client's channel is named by its handler.
 */
module SseHub {

  type Line = string
  type ClientId = nat

  const CAPACITY := 64

  /** Where a handler stands in subscribe, in its serving loop, or in unsubscribe. */
  datatype HandlerPc =
    | Made         // channel created, lock not yet requested
    | Subscribing  // write lock held, not yet in the map
    | Inserted     // write lock held, in the map
    | Serving      // in the serving loop
    | Leaving      // loop left, lock not yet requested
    | Removing     // write lock held, still in the map
    | Removed      // write lock held, out of the map
    | Closing      // lock released, channel not yet closed
    | Done
  {
    predicate HoldsLock() { Subscribing? || Inserted? || Removing? || Removed? }
    predicate InMap() { Inserted? || Serving? || Leaving? || Removing? }
    predicate BeforeMap() { Made? || Subscribing? }
  }

  /** What became of one line offered to a client. */
  datatype Fate = Delivered | Dropped

  datatype Handler = Handler(
    pc: HandlerPc,
    buffer: seq<Line>,
    closed: bool,
    received: seq<Line>,
    fates: seq<Fate>,   // history: one entry per line offered
    joinedAt: nat,      // history: lines broadcast before the client entered the map
    leftAt: nat)        // history: lines broadcast before the client left the map

  datatype Relay = Waiting | Sending(line: Line, visited: set<ClientId>)

  datatype Writer = NoWriter | HeldBy(client: ClientId)

  datatype Hub = Hub(
    clients: set<ClientId>,
    handlers: map<ClientId, Handler>,
    relay: Relay,
    writer: Writer,
    readers: nat,
    history: seq<Line>, // history: every line broadcast so far, in order
    panicked: bool)     // a send on, or a close of, a closed channel

  const EMPTY := Hub({}, map[], Waiting, NoWriter, 0, [], false)

  datatype Action =
    | MakeChannel(client: ClientId)
    | LockForInsert(client: ClientId)
    | InsertClient(client: ClientId)
    | UnlockAfterInsert(client: ClientId)
    | Receive(client: ClientId)
    | HangUp(client: ClientId)
    | LockForDelete(client: ClientId)
    | DeleteClient(client: ClientId)
    | UnlockAfterDelete(client: ClientId)
    | CloseChannel(client: ClientId)
    | BeginBroadcast(line: Line)
    | Offer(client: ClientId)
    | EndBroadcast

  predicate At(s: Hub, c: ClientId, pc: HandlerPc) {
    c in s.handlers && s.handlers[c].pc == pc
  }

  /** A step may be taken when its goroutine has reached it and the lock does not make it wait. */
  predicate Enabled(s: Hub, a: Action) {
    match a
    case MakeChannel(c) => c !in s.handlers
    case LockForInsert(c) => At(s, c, Made) && s.writer.NoWriter? && s.readers == 0
    case InsertClient(c) => At(s, c, Subscribing)
    case UnlockAfterInsert(c) => At(s, c, Inserted)
    case Receive(c) => At(s, c, Serving) && s.handlers[c].buffer != []
    case HangUp(c) => At(s, c, Serving)
    case LockForDelete(c) => At(s, c, Leaving) && s.writer.NoWriter? && s.readers == 0
    case DeleteClient(c) => At(s, c, Removing)
    case UnlockAfterDelete(c) => At(s, c, Removed)
    case CloseChannel(c) => At(s, c, Closing)
    case BeginBroadcast(_) => s.relay.Waiting? && s.writer.NoWriter?
    case Offer(c) => s.relay.Sending? && c in s.clients && c !in s.relay.visited && c in s.handlers
    case EndBroadcast => s.relay.Sending? && s.clients <= s.relay.visited && s.readers > 0
  }

  function With(s: Hub, c: ClientId, h: Handler): Hub {
    s.(handlers := s.handlers[c := h])
  }

  /** The non-blocking send: a full channel drops the line. */
  function Offered(h: Handler, line: Line): Handler {
    if |h.buffer| < CAPACITY then h.(buffer := h.buffer + [line], fates := h.fates + [Delivered])
    else h.(fates := h.fates + [Dropped])
  }

  function Apply(s: Hub, a: Action): Hub
    requires Enabled(s, a)
  {
    match a
    case MakeChannel(c) =>
      With(s, c, Handler(Made, [], false, [], [], 0, 0))
    case LockForInsert(c) =>
      With(s, c, s.handlers[c].(pc := Subscribing)).(writer := HeldBy(c))
    case InsertClient(c) =>
      With(s, c, s.handlers[c].(pc := Inserted, joinedAt := |s.history|)).(clients := s.clients + {c})
    case UnlockAfterInsert(c) =>
      With(s, c, s.handlers[c].(pc := Serving)).(writer := NoWriter)
    case Receive(c) =>
      var h := s.handlers[c];
      With(s, c, h.(buffer := h.buffer[1..], received := h.received + [h.buffer[0]]))
    case HangUp(c) =>
      With(s, c, s.handlers[c].(pc := Leaving))
    case LockForDelete(c) =>
      With(s, c, s.handlers[c].(pc := Removing)).(writer := HeldBy(c))
    case DeleteClient(c) =>
      With(s, c, s.handlers[c].(pc := Removed, leftAt := |s.history|)).(clients := s.clients - {c})
    case UnlockAfterDelete(c) =>
      With(s, c, s.handlers[c].(pc := Closing)).(writer := NoWriter)
    case CloseChannel(c) =>
      With(s, c, s.handlers[c].(pc := Done, closed := true)).(panicked := s.panicked || s.handlers[c].closed)
    case BeginBroadcast(line) =>
      s.(relay := Sending(line, {}), readers := s.readers + 1, history := s.history + [line])
    case Offer(c) =>
      if s.handlers[c].closed then s.(panicked := true)
      else With(s, c, Offered(s.handlers[c], s.relay.line)).(relay := Sending(s.relay.line, s.relay.visited + {c}))
    case EndBroadcast =>
      s.(relay := Waiting, readers := s.readers - 1)
  }

  /** The hub after the first `n` scheduling attempts; an attempt at a step that must wait changes nothing. */
  function After(schedule: seq<Action>, n: nat): Hub
    requires n <= |schedule|
  {
    if n == 0 then EMPTY
    else
      var s := After(schedule, n - 1);
      if Enabled(s, schedule[n - 1]) then Apply(s, schedule[n - 1]) else s
  }

  // ---- What every step keeps ----

  /** The lines that reached the channel. */
  function Selected(lines: seq<Line>, fates: seq<Fate>): seq<Line>
    requires |lines| == |fates|
  {
    if fates == [] then []
    else
      var last := |fates| - 1;
      Selected(lines[..last], fates[..last]) + (if fates[last].Delivered? then [lines[last]] else [])
  }

  /** How many of the broadcast lines have been offered to the client. */
  function Reached(s: Hub, c: ClientId): int
    requires c in s.handlers
  {
    if s.handlers[c].pc.InMap() then
      |s.history| - (if s.relay.Sending? && c !in s.relay.visited then 1 else 0)
    else s.handlers[c].leftAt
  }

  /** The handler's position agrees with its channel, the client map and the lock. */
  predicate PlaceOk(s: Hub, c: ClientId)
    requires c in s.handlers
  {
    var h := s.handlers[c];
    && (h.closed <==> h.pc.Done?)
    && (h.pc.InMap() <==> c in s.clients)
    && (h.pc.HoldsLock() <==> s.writer == HeldBy(c))
  }

  /** What the client has read and what is pending are the delivered lines, in broadcast order. */
  predicate DeliveryOk(s: Hub, c: ClientId)
    requires c in s.handlers
  {
    var h := s.handlers[c];
    && |h.buffer| <= CAPACITY
    && if h.pc.BeforeMap() then h.buffer == [] && h.received == [] && h.fates == []
       else
         && 0 <= h.joinedAt <= Reached(s, c) <= |s.history|
         && |h.fates| == Reached(s, c) - h.joinedAt
         && h.received + h.buffer == Selected(s.history[h.joinedAt..Reached(s, c)], h.fates)
  }

  predicate HandlerOk(s: Hub, c: ClientId)
    requires c in s.handlers
  {
    PlaceOk(s, c) && DeliveryOk(s, c)
  }

  predicate HubOk(s: Hub) {
    && !s.panicked
    && s.clients <= s.handlers.Keys
    && s.readers == (if s.relay.Sending? then 1 else 0)
    && (s.writer.HeldBy? ==> s.writer.client in s.handlers && s.readers == 0)
    && (s.relay.Sending?
        ==> s.relay.visited <= s.clients && s.history != [] && s.history[|s.history| - 1] == s.relay.line)
    && forall c :: c in s.handlers ==> HandlerOk(s, c)
  }

  lemma SnocSelected(lines: seq<Line>, fates: seq<Fate>, line: Line, fate: Fate)
    requires |lines| == |fates|
    ensures Selected(lines + [line], fates + [fate])
         == Selected(lines, fates) + (if fate.Delivered? then [line] else [])
  {
    assert (lines + [line])[..|fates|] == lines && (fates + [fate])[..|fates|] == fates;
  }

  lemma OfferSelected(h: Handler, line: Line, lines: seq<Line>)
    requires |lines| == |h.fates| && h.received + h.buffer == Selected(lines, h.fates)
    ensures
      var h' := Offered(h, line);
      |h'.fates| == |lines| + 1 && h'.received + h'.buffer == Selected(lines + [line], h'.fates)
  {
    hide Selected;
    SnocSelected(lines, h.fates, line, Offered(h, line).fates[|h.fates|]);
    assert h.received + (h.buffer + [line]) == (h.received + h.buffer) + [line];
    assert h.received + h.buffer + [] == h.received + h.buffer;
  }

  lemma OfferKeepsHandler(s: Hub, c: ClientId)
    requires HubOk(s) && Enabled(s, Offer(c))
    ensures !s.handlers[c].closed
    ensures HandlerOk(Apply(s, Offer(c)), c)
  {
    hide Selected;
    var h := s.handlers[c];
    assert HandlerOk(s, c);
    var s' := Apply(s, Offer(c));
    var lines := s.history[h.joinedAt..Reached(s, c)];
    OfferSelected(h, s.relay.line, lines);
    assert s'.history[h.joinedAt..Reached(s', c)] == lines + [s.relay.line];
  }

  lemma BroadcastKeepsOthers(s: Hub, a: Action, c: ClientId)
    requires HubOk(s) && Enabled(s, a)
    requires a.BeginBroadcast? || a.EndBroadcast?
    requires c in s.handlers
    ensures HandlerOk(Apply(s, a), c)
  {
    hide Selected;
    var s' := Apply(s, a);
    var h := s.handlers[c];
    assert HandlerOk(s, c);
    if !h.pc.BeforeMap() {
      var n := Reached(s, c);
      assert Reached(s', c) == n <= |s.history|;
      assert s'.history == s.history + s'.history[|s.history|..];
      assert s'.history[h.joinedAt..n] == s.history[h.joinedAt..n];
    }
  }

  /** A step that leaves a client's lines and its place in the broadcasts alone keeps its delivery in order. */
  lemma DeliveryStays(s: Hub, s': Hub, c: ClientId)
    requires c in s.handlers && c in s'.handlers && DeliveryOk(s, c) && s'.history == s.history
    requires s'.handlers[c].buffer == s.handlers[c].buffer && s'.handlers[c].received == s.handlers[c].received
    requires s'.handlers[c].fates == s.handlers[c].fates && s'.handlers[c].joinedAt == s.handlers[c].joinedAt
    requires s'.handlers[c].pc.BeforeMap() <==> s.handlers[c].pc.BeforeMap()
    requires !s.handlers[c].pc.BeforeMap() ==> Reached(s', c) == Reached(s, c)
    ensures DeliveryOk(s', c)
  {
    hide Selected, Reached;
  }

  lemma OthersKept(s: Hub, a: Action, c: ClientId)
    requires HubOk(s) && Enabled(s, a)
    requires !a.BeginBroadcast? && !a.EndBroadcast? && c != a.client
    requires c in s.handlers
    ensures HandlerOk(Apply(s, a), c)
  {
    hide DeliveryOk, Reached, Apply, Enabled;
    assert HandlerOk(s, c);
    OthersUntouched(s, a, c);
    DeliveryStays(s, Apply(s, a), c);
  }

  lemma OthersUntouched(s: Hub, a: Action, c: ClientId)
    requires HubOk(s) && Enabled(s, a)
    requires !a.BeginBroadcast? && !a.EndBroadcast? && c != a.client && c in s.handlers
    ensures
      var s' := Apply(s, a);
      && c in s'.handlers && s'.handlers[c] == s.handlers[c]
      && s'.history == s.history && Reached(s', c) == Reached(s, c)
      && (c in s'.clients <==> c in s.clients) && (s'.writer == HeldBy(c) <==> s.writer == HeldBy(c))
  {
    hide DeliveryOk;
    if !a.MakeChannel? {
      assert HandlerOk(s, a.client);
    }
  }

  lemma ReceiveKept(s: Hub, c: ClientId)
    requires HubOk(s) && Enabled(s, Receive(c))
    ensures HandlerOk(Apply(s, Receive(c)), c)
  {
    hide Selected;
    var h, h' := s.handlers[c], Apply(s, Receive(c)).handlers[c];
    assert HandlerOk(s, c);
    assert h'.received + h'.buffer == h.received + ([h.buffer[0]] + h.buffer[1..]);
    assert [h.buffer[0]] + h.buffer[1..] == h.buffer;
  }

  lemma InsertKept(s: Hub, c: ClientId)
    requires HubOk(s) && Enabled(s, InsertClient(c))
    ensures HandlerOk(Apply(s, InsertClient(c)), c)
  {
    assert HandlerOk(s, c);
    assert s.history[|s.history|..|s.history|] == [];
  }

  lemma LeaveKept(s: Hub, a: Action)
    requires HubOk(s) && Enabled(s, a)
    requires a.DeleteClient? || a.UnlockAfterDelete? || a.CloseChannel?
    ensures HandlerOk(Apply(s, a), a.client)
    ensures !Apply(s, a).panicked
  {
    hide DeliveryOk;
    assert HandlerOk(s, a.client);
    LeaveReaches(s, a);
    DeliveryStays(s, Apply(s, a), a.client);
  }

  lemma LeaveReaches(s: Hub, a: Action)
    requires HubOk(s) && Enabled(s, a)
    requires a.DeleteClient? || a.UnlockAfterDelete? || a.CloseChannel?
    ensures Reached(Apply(s, a), a.client) == Reached(s, a.client)
  {
    hide DeliveryOk;
    assert HandlerOk(s, a.client);
  }

  lemma MoveKept(s: Hub, a: Action)
    requires HubOk(s) && Enabled(s, a)
    requires a.LockForInsert? || a.UnlockAfterInsert? || a.HangUp? || a.LockForDelete? || a.MakeChannel?
    ensures HandlerOk(Apply(s, a), a.client)
  {
    hide DeliveryOk;
    if a.MakeChannel? {
      NewDelivery(s, a.client);
    } else {
      assert HandlerOk(s, a.client);
      DeliveryStays(s, Apply(s, a), a.client);
    }
  }

  lemma NewDelivery(s: Hub, c: ClientId)
    requires Enabled(s, MakeChannel(c))
    ensures DeliveryOk(Apply(s, MakeChannel(c)), c)
  {
  }

  lemma HandlersKept(s: Hub, a: Action, c: ClientId)
    requires HubOk(s) && Enabled(s, a) && c in Apply(s, a).handlers
    ensures HandlerOk(Apply(s, a), c)
  {
    hide HandlerOk, Apply, Enabled;
    if a.BeginBroadcast? || a.EndBroadcast? {
      BroadcastKeepsOthers(s, a, c) by { StepHandlers(s, a); }
    } else if c != a.client {
      OthersKept(s, a, c) by { StepHandlers(s, a); }
    } else {
      match a
      case Offer(_) => OfferKeepsHandler(s, c);
      case Receive(_) => ReceiveKept(s, c);
      case InsertClient(_) => InsertKept(s, c);
      case DeleteClient(_) => LeaveKept(s, a);
      case UnlockAfterDelete(_) => LeaveKept(s, a);
      case CloseChannel(_) => LeaveKept(s, a);
      case _ => MoveKept(s, a);
    }
  }

  lemma StepHandlers(s: Hub, a: Action)
    requires Enabled(s, a)
    ensures Apply(s, a).handlers.Keys
         == s.handlers.Keys + (if a.BeginBroadcast? || a.EndBroadcast? then {} else {a.client})
  {
  }

  lemma StepKeepsOk(s: Hub, a: Action)
    requires HubOk(s) && Enabled(s, a)
    ensures HubOk(Apply(s, a))
  {
    hide DeliveryOk;
    var s' := Apply(s, a);
    if !a.BeginBroadcast? && !a.EndBroadcast? && !a.MakeChannel? {
      assert HandlerOk(s, a.client);
    }
    assert !s'.panicked && s'.clients <= s'.handlers.Keys;
    forall c | c in s'.handlers ensures HandlerOk(s', c) {
      HandlersKept(s, a, c);
    }
  }

  lemma {:induction false} AlwaysOk(schedule: seq<Action>, n: nat)
    requires n <= |schedule|
    ensures HubOk(After(schedule, n))
  {
    if n == 0 {
    } else {
      AlwaysOk(schedule, n - 1);
      var s := After(schedule, n - 1);
      if Enabled(s, schedule[n - 1]) {
        StepKeepsOk(s, schedule[n - 1]);
      }
    }
  }

  // ---- Safety over every schedule ----

  /** What would panic, in any state at all: a send on a closed channel, or closing one again. */
  lemma PanicsIff(s: Hub, a: Action)
    requires Enabled(s, a) && !s.panicked
    ensures Apply(s, a).panicked <==> (a.Offer? || a.CloseChannel?) && s.handlers[a.client].closed
  {
  }

  /** No line is ever sent on a closed channel, and no channel is closed twice. */
  lemma NeverPanics(schedule: seq<Action>, n: nat)
    requires n <= |schedule|
    ensures !After(schedule, n).panicked
    ensures forall c :: Enabled(After(schedule, n), Offer(c)) ==> !After(schedule, n).handlers[c].closed
  {
    var s := After(schedule, n);
    AlwaysOk(schedule, n);
    forall c | Enabled(s, Offer(c)) ensures !s.handlers[c].closed {
      OfferKeepsHandler(s, c);
    }
  }

  /** The lines broadcast while the client was in the map, up to now. */
  function Window(s: Hub, c: ClientId): seq<Line>
    requires c in s.handlers && !s.handlers[c].pc.BeforeMap()
    requires HandlerOk(s, c)
  {
    var until := if s.handlers[c].pc.InMap() then |s.history| else s.handlers[c].leftAt;
    s.history[s.handlers[c].joinedAt..until]
  }

  /** `at` picks out `part` from `whole`, in order. */
  ghost predicate PickedAt(part: seq<Line>, whole: seq<Line>, at: seq<nat>) {
    && |at| == |part|
    && (forall i :: 0 <= i < |at| ==> at[i] < |whole| && whole[at[i]] == part[i])
    && (forall i, j :: 0 <= i < j < |at| ==> at[i] < at[j])
  }

  lemma PickedSnoc(part: seq<Line>, whole: seq<Line>, at: seq<nat>, line: Line)
    requires PickedAt(part, whole, at)
    ensures PickedAt(part, whole + [line], at)
    ensures PickedAt(part + [line], whole + [line], at + [|whole|])
    ensures |whole| !in at
  {
  }

  lemma {:induction false} SelectedIsPicked(lines: seq<Line>, fates: seq<Fate>) returns (at: seq<nat>)
    requires |lines| == |fates|
    ensures PickedAt(Selected(lines, fates), lines, at)
    ensures forall i :: 0 <= i < |fates| ==> (fates[i].Delivered? <==> i in at)
  {
    if fates == [] {
      at := [];
    } else {
      var last := |fates| - 1;
      var before := SelectedIsPicked(lines[..last], fates[..last]);
      PickedSnoc(Selected(lines[..last], fates[..last]), lines[..last], before, lines[last]);
      assert lines == lines[..last] + [lines[last]];
      hide PickedAt;
      at := before + (if fates[last].Delivered? then [last] else []);
      forall i | 0 <= i < |fates| ensures fates[i].Delivered? <==> i in at {
        if i < last {
          assert fates[..last][i] == fates[i];
        }
      }
    }
  }

  /**
   What a client has read, followed by what is pending for it, is an in-order subsequence of the lines
   broadcast while it was registered; once no broadcast is under way, a line of that window is missing
   exactly where a fate says it was dropped.
   */
  lemma ReceivedInOrder(schedule: seq<Action>, n: nat, c: ClientId) returns (at: seq<nat>)
    requires n <= |schedule|
    requires c in After(schedule, n).handlers && !After(schedule, n).handlers[c].pc.BeforeMap()
    ensures HandlerOk(After(schedule, n), c)
    ensures
      var s := After(schedule, n);
      var h := s.handlers[c];
      && PickedAt(h.received + h.buffer, Window(s, c), at)
      && |h.fates| <= |Window(s, c)| <= |h.fates| + 1
      && (s.relay.Waiting? ==> |h.fates| == |Window(s, c)|)
      && forall i :: 0 <= i < |h.fates| ==> (h.fates[i].Delivered? <==> i in at)
  {
    var s := After(schedule, n);
    var h := s.handlers[c];
    AlwaysOk(schedule, n);
    assert HandlerOk(s, c);
    var reached := s.history[h.joinedAt..Reached(s, c)];
    at := SelectedIsPicked(reached, h.fates);
    assert reached <= Window(s, c);
  }

  // ---- When a line is missed ----

  lemma StepFates(s: Hub, a: Action, c: ClientId)
    requires HubOk(s) && Enabled(s, a) && c in s.handlers
    ensures c in Apply(s, a).handlers
    ensures a == Offer(c) ==> Apply(s, a).handlers[c] == Offered(s.handlers[c], s.relay.line)
    ensures a != Offer(c) ==> Apply(s, a).handlers[c].fates == s.handlers[c].fates
  {
    hide HubOk, HandlerOk;
    if a.Offer? {
      OfferKeepsHandler(s, a.client);
    }
  }

  /**
   The moment a line met its fate: the offer of that line, at which exactly `CAPACITY` lines were pending
   for the client if it was dropped, and fewer if it was delivered.
   */
  lemma {:induction false} FateDecided(schedule: seq<Action>, n: nat, c: ClientId, i: nat) returns (m: nat)
    requires n <= |schedule| && c in After(schedule, n).handlers
    requires i < |After(schedule, n).handlers[c].fates|
    ensures m < n && schedule[m] == Offer(c) && Enabled(After(schedule, m), Offer(c))
    ensures |After(schedule, m).handlers[c].fates| == i
    ensures |After(schedule, m).handlers[c].buffer| <= CAPACITY
    ensures After(schedule, n).handlers[c].fates[i].Dropped?
       <==> |After(schedule, m).handlers[c].buffer| == CAPACITY
  {
    hide HubOk, Apply, Enabled;
    AlwaysOk(schedule, n);
    var s, a := After(schedule, n - 1), schedule[n - 1];
    AlwaysOk(schedule, n - 1);
    if !Enabled(s, a) {
      m := FateDecided(schedule, n - 1, c, i);
    } else {
      StepHandlers(s, a);
      if c !in s.handlers {
        NewHandlerHasNoFate(s, a, c);
      } else {
        StepFates(s, a, c);
        if i < |s.handlers[c].fates| {
          m := FateDecided(schedule, n - 1, c, i);
        } else {
          m := n - 1;
          BufferBounded(s, c);
        }
      }
    }
  }

  lemma NewHandlerHasNoFate(s: Hub, a: Action, c: ClientId)
    requires Enabled(s, a) && c !in s.handlers && c in Apply(s, a).handlers
    ensures Apply(s, a).handlers[c].fates == []
  {
  }

  lemma BufferBounded(s: Hub, c: ClientId)
    requires HubOk(s) && c in s.handlers
    ensures |s.handlers[c].buffer| <= CAPACITY
  {
    assert HandlerOk(s, c);
  }

  lemma {:induction false} SelectedShort(lines: seq<Line>, fates: seq<Fate>)
    requires |lines| == |fates|
    ensures |Selected(lines, fates)| <= |fates|
  {
    if fates == [] {
    } else {
      SelectedShort(lines[..|fates| - 1], fates[..|fates| - 1]);
    }
  }

  /** A client misses none of the first `CAPACITY` lines broadcast after it joined, however slow it is. */
  lemma FirstLinesReachEveryClient(schedule: seq<Action>, n: nat, c: ClientId, i: nat)
    requires n <= |schedule| && c in After(schedule, n).handlers
    requires i < |After(schedule, n).handlers[c].fates| && i < CAPACITY
    ensures After(schedule, n).handlers[c].fates[i].Delivered?
  {
    var m := FateDecided(schedule, n, c, i);
    AlwaysOk(schedule, m);
    var s := After(schedule, m);
    var h := s.handlers[c];
    assert HandlerOk(s, c);
    SelectedShort(s.history[h.joinedAt..Reached(s, c)], h.fates);
    assert |h.buffer| <= |h.received + h.buffer| <= i;
  }

  lemma {:induction false} AllSelected(lines: seq<Line>, fates: seq<Fate>)
    requires |lines| == |fates| && forall i :: 0 <= i < |fates| ==> fates[i].Delivered?
    ensures Selected(lines, fates) == lines
  {
    if fates == [] {
    } else {
      var last := |fates| - 1;
      AllSelected(lines[..last], fates[..last]);
      assert lines == lines[..last] + [lines[last]];
    }
  }

  /** A client that never falls `CAPACITY` lines behind misses nothing. */
  lemma KeepingUpMissesNothing(schedule: seq<Action>, n: nat, c: ClientId)
    requires n <= |schedule| && After(schedule, n).relay.Waiting?
    requires c in After(schedule, n).handlers && !After(schedule, n).handlers[c].pc.BeforeMap()
    requires forall m :: 0 <= m < n && c in After(schedule, m).handlers
                     ==> |After(schedule, m).handlers[c].buffer| < CAPACITY
    ensures HandlerOk(After(schedule, n), c)
    ensures After(schedule, n).handlers[c].received + After(schedule, n).handlers[c].buffer
         == Window(After(schedule, n), c)
  {
    var s := After(schedule, n);
    var h := s.handlers[c];
    AlwaysOk(schedule, n);
    assert HandlerOk(s, c);
    forall i | 0 <= i < |h.fates| ensures h.fates[i].Delivered? {
      var m := FateDecided(schedule, n, c, i);
      assert c in After(schedule, m).handlers;
    }
    AllSelected(s.history[h.joinedAt..Reached(s, c)], h.fates);
  }

  // ---- Progress ----

  /** The next step of a handler that holds the write lock. */
  function NextUnderLock(s: Hub, c: ClientId): Action
    requires c in s.handlers
  {
    match s.handlers[c].pc
    case Subscribing => InsertClient(c)
    case Inserted => UnlockAfterInsert(c)
    case Removing => DeleteClient(c)
    case _ => UnlockAfterDelete(c)
  }

  /**
   The lock is never held by a goroutine that has to wait: a writer's next step is enabled, and a relay in
   mid-broadcast can offer to every client it has not visited, full or not, or else finish.
   */
  lemma LockHolderCanMove(schedule: seq<Action>, n: nat)
    requires n <= |schedule|
    ensures
      var s := After(schedule, n);
      && (s.writer.HeldBy? ==> s.writer.client in s.handlers && Enabled(s, NextUnderLock(s, s.writer.client)))
      && (s.readers > 0 ==> s.relay.Sending?)
      && (s.relay.Sending? ==>
           if s.clients <= s.relay.visited then Enabled(s, EndBroadcast)
           else forall c :: c in s.clients - s.relay.visited ==> Enabled(s, Offer(c)))
  {
    var s := After(schedule, n);
    AlwaysOk(schedule, n);
    if s.writer.HeldBy? {
      assert HandlerOk(s, s.writer.client);
    }
  }
}
