/**
 What the fan-out hub can still do from wherever a schedule has brought it (omokoda-ops/sse.go): the lock can be freed,
 a client that has its channel can be served and read a line, and one that is served can leave and close its channel.
 */
module SseProgress {
  import opened SseHub

  /** The hub at the end of a schedule. */
  function End(schedule: seq<Action>): Hub {
    After(schedule, |schedule|)
  }

  /** Nobody holds the lock, and no broadcast is under way. */
  predicate LockFree(s: Hub) {
    s.writer.NoWriter? && s.readers == 0 && s.relay.Waiting?
  }

  // ---- One more step ----

  lemma {:induction false} SameBefore(schedule: seq<Action>, a: Action, n: nat)
    requires n <= |schedule|
    ensures After(schedule + [a], n) == After(schedule, n)
  {
    hide Apply, Enabled;
    if n == 0 {
    } else {
      SameBefore(schedule, a, n - 1);
    }
  }

  lemma OneMore(schedule: seq<Action>, a: Action)
    ensures End(schedule + [a]) == if Enabled(End(schedule), a) then Apply(End(schedule), a) else End(schedule)
  {
    hide Apply, Enabled;
    SameBefore(schedule, a, |schedule|);
  }

  /** A step that is enabled, told by the client's own position. */
  lemma Takes(schedule: seq<Action>, a: Action) returns (longer: seq<Action>)
    requires Enabled(End(schedule), a)
    ensures schedule <= longer && End(longer) == Apply(End(schedule), a) && HubOk(End(longer))
  {
    hide Apply, Enabled, HubOk;
    longer := schedule + [a];
    OneMore(schedule, a);
    AlwaysOk(longer, |longer|);
  }

  // ---- Freeing the lock ----

  /** Nobody but the holder of the lock moved on. */
  ghost predicate OthersStay(s: Hub, s': Hub) {
    forall c :: c in s.handlers && s.writer != HeldBy(c) ==>
      c in s'.handlers && s'.handlers[c].pc == s.handlers[c].pc && s'.writer != HeldBy(c)
  }

  /** The writer that holds the lock gets to release it. */
  lemma WriterReleases(schedule: seq<Action>) returns (longer: seq<Action>)
    requires End(schedule).writer.HeldBy?
    ensures schedule <= longer && LockFree(End(longer)) && OthersStay(End(schedule), End(longer))
  {
    hide End, DeliveryOk;
    var s := End(schedule);
    HubIsOk(schedule);
    var d := s.writer.client;
    assert HandlerOk(s, d);
    longer := schedule;
    if s.handlers[d].pc.Subscribing? {
      longer := Takes(longer, InsertClient(d));
    } else if s.handlers[d].pc.Removing? {
      longer := Takes(longer, DeleteClient(d));
    }
    var middle := End(longer);
    assert HandlerOk(middle, d);
    longer := Takes(longer, if middle.handlers[d].pc.Inserted? then UnlockAfterInsert(d) else UnlockAfterDelete(d));
  }

  lemma HubIsOk(schedule: seq<Action>)
    ensures HubOk(End(schedule))
  {
    AlwaysOk(schedule, |schedule|);
  }

  /** A broadcast under way offers its line to every client that is left, and ends. */
  lemma {:induction false} BroadcastEnds(schedule: seq<Action>) returns (longer: seq<Action>)
    requires End(schedule).relay.Sending?
    ensures schedule <= longer && LockFree(End(longer)) && OthersStay(End(schedule), End(longer))
    decreases |End(schedule).clients - End(schedule).relay.visited|
  {
    hide End, HubOk, Apply, Enabled, LockFree;
    var s := End(schedule);
    HubIsOk(schedule);
    if c :| c in s.clients - s.relay.visited {
      Offers(s, c);
      longer := Takes(schedule, Offer(c));
      longer := BroadcastEnds(longer);
    } else {
      Ends(s);
      longer := Takes(schedule, EndBroadcast);
    }
  }

  lemma Offers(s: Hub, c: ClientId)
    requires HubOk(s) && s.relay.Sending? && c in s.clients - s.relay.visited
    ensures Enabled(s, Offer(c))
    ensures
      var s' := Apply(s, Offer(c));
      && s'.relay.Sending? && OthersStay(s, s')
      && s'.clients - s'.relay.visited == (s.clients - s.relay.visited) - {c}
  {
    hide HandlerOk;
    OfferKeepsHandler(s, c);
  }

  lemma Ends(s: Hub)
    requires HubOk(s) && s.relay.Sending? && s.clients - s.relay.visited == {}
    ensures Enabled(s, EndBroadcast) && LockFree(Apply(s, EndBroadcast)) && OthersStay(s, Apply(s, EndBroadcast))
  {
    hide HandlerOk;
    forall c | c in s.clients ensures c in s.relay.visited { assert c !in s.clients - s.relay.visited; }
  }

  /** From every reachable state the lock can be freed. */
  lemma LockCanBeFreed(schedule: seq<Action>) returns (longer: seq<Action>)
    ensures schedule <= longer && LockFree(End(longer)) && OthersStay(End(schedule), End(longer))
  {
    hide End, HandlerOk;
    HubIsOk(schedule);
    longer := schedule;
    if End(schedule).relay.Sending? {
      longer := BroadcastEnds(schedule);
    } else if End(schedule).writer.HeldBy? {
      longer := WriterReleases(schedule);
    }
  }

  // ---- Being served, and leaving ----

  /** The client is at this point, with this much read and this much pending. */
  ghost predicate Stands(s: Hub, c: ClientId, pc: HandlerPc, buffer: seq<Line>, received: seq<Line>) {
    && At(s, c, pc) && !s.handlers[c].closed
    && s.handlers[c].buffer == buffer && s.handlers[c].received == received
  }

  lemma Joins(s: Hub, c: ClientId)
    requires LockFree(s) && Stands(s, c, Made, [], [])
    ensures Enabled(s, LockForInsert(c))
    ensures Enabled(Apply(s, LockForInsert(c)), InsertClient(c))
    ensures Enabled(Apply(Apply(s, LockForInsert(c)), InsertClient(c)), UnlockAfterInsert(c))
    ensures
      var s' := Apply(Apply(Apply(s, LockForInsert(c)), InsertClient(c)), UnlockAfterInsert(c));
      LockFree(s') && c in s'.clients && Stands(s', c, Serving, [], [])
  {
  }

  lemma Reads(s: Hub, c: ClientId, line: Line)
    requires LockFree(s) && c in s.clients && Stands(s, c, Serving, [], [])
    ensures Enabled(s, BeginBroadcast(line))
    ensures Enabled(Apply(s, BeginBroadcast(line)), Offer(c))
    ensures Enabled(Apply(Apply(s, BeginBroadcast(line)), Offer(c)), Receive(c))
    ensures Stands(Apply(Apply(Apply(s, BeginBroadcast(line)), Offer(c)), Receive(c)), c, Serving, [], [line])
  {
  }

  /** From every reachable state a client that has its channel can be served, and then read whatever line comes next. */
  lemma CanBeServed(schedule: seq<Action>, c: ClientId, line: Line) returns (longer: seq<Action>)
    requires At(End(schedule), c, Made)
    ensures schedule <= longer && At(End(longer), c, Serving) && End(longer).handlers[c].received == [line]
  {
    hide End, Apply, Enabled, LockFree;
    longer := LockCanBeFreed(schedule);
    StartsEmpty(schedule, longer, c);
    hide HubOk;
    Joins(End(longer), c);
    longer := Takes(longer, LockForInsert(c));
    longer := Takes(longer, InsertClient(c));
    longer := Takes(longer, UnlockAfterInsert(c));
    Reads(End(longer), c, line);
    longer := Takes(longer, BeginBroadcast(line));
    longer := Takes(longer, Offer(c));
    longer := Takes(longer, Receive(c));
  }

  lemma StartsEmpty(schedule: seq<Action>, longer: seq<Action>, c: ClientId)
    requires At(End(schedule), c, Made) && OthersStay(End(schedule), End(longer))
    ensures Stands(End(longer), c, Made, [], [])
  {
    hide End;
    HubIsOk(schedule);
    HubIsOk(longer);
    assert HandlerOk(End(schedule), c) && HandlerOk(End(longer), c);
  }

  /** A served client with something pending can read at once, whoever holds the lock. */
  lemma CanReadWhatIsPending(s: Hub, c: ClientId)
    requires At(s, c, Serving) && s.handlers[c].buffer != []
    ensures Enabled(s, Receive(c))
    ensures Apply(s, Receive(c)).handlers[c].received == s.handlers[c].received + [s.handlers[c].buffer[0]]
  {
  }

  lemma HangsUp(s: Hub, c: ClientId)
    requires HubOk(s) && At(s, c, Serving)
    ensures Enabled(s, HangUp(c))
    ensures At(Apply(s, HangUp(c)), c, Leaving) && Apply(s, HangUp(c)).writer != HeldBy(c)
  {
    hide DeliveryOk;
    assert HandlerOk(s, c);
  }

  lemma Leaves(s: Hub, c: ClientId)
    requires LockFree(s) && At(s, c, Leaving)
    ensures Enabled(s, LockForDelete(c))
    ensures Enabled(Apply(s, LockForDelete(c)), DeleteClient(c))
    ensures Enabled(Apply(Apply(s, LockForDelete(c)), DeleteClient(c)), UnlockAfterDelete(c))
    ensures Enabled(Apply(Apply(Apply(s, LockForDelete(c)), DeleteClient(c)), UnlockAfterDelete(c)), CloseChannel(c))
    ensures
      var s' :=
        Apply(Apply(Apply(Apply(s, LockForDelete(c)), DeleteClient(c)), UnlockAfterDelete(c)), CloseChannel(c));
      At(s', c, Done) && c !in s'.clients && s'.handlers[c].closed && LockFree(s')
  {
  }

  /** From every reachable state a served client can leave: out of the map, its channel closed. */
  lemma CanLeave(schedule: seq<Action>, c: ClientId) returns (longer: seq<Action>)
    requires At(End(schedule), c, Serving)
    ensures schedule <= longer && At(End(longer), c, Done)
    ensures c !in End(longer).clients && End(longer).handlers[c].closed
  {
    hide End, HubOk, Apply, Enabled, LockFree;
    HubIsOk(schedule);
    HangsUp(End(schedule), c);
    longer := Takes(schedule, HangUp(c));
    longer := LockCanBeFreed(longer);
    Leaves(End(longer), c);
    longer := Takes(longer, LockForDelete(c));
    longer := Takes(longer, DeleteClient(c));
    longer := Takes(longer, UnlockAfterDelete(c));
    longer := Takes(longer, CloseChannel(c));
  }
}
