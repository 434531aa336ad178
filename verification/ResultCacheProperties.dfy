/**
 The cache against two references (omokoda-simulation/server.py): a plain list of touches, which decides
 what is cached and in which order, and the runner without a cache, which decides what is answered.
 */
module ResultCacheProperties {
  import opened ResultCache
  import opened Wrappers
  import opened Collections

  // ---- Recency ----

  /** The position of the last touch of `k`, or -1. */
  function LastTouch(touches: seq<string>, k: string): (t: int)
    ensures -1 <= t < |touches|
    ensures t == -1 <==> k !in touches
    ensures t >= 0 ==> touches[t] == k && forall i :: t < i < |touches| ==> touches[i] != k
  {
    if touches == [] then -1
    else if touches[|touches| - 1] == k then |touches| - 1
    else LastTouch(touches[..|touches| - 1], k)
  }

  ghost predicate Ascending(order: seq<string>, touches: seq<string>) {
    forall i, j :: 0 <= i < j < |order| ==> LastTouch(touches, order[i]) < LastTouch(touches, order[j])
  }

  ghost predicate AllTouched(order: seq<string>, touches: seq<string>) {
    forall i :: 0 <= i < |order| ==> order[i] in touches
  }

  /** Every touched key that is missing was last touched before all those present, and there was no room for it. */
  ghost predicate MissingAreOlder(order: seq<string>, touches: seq<string>, max: nat) {
    forall k :: k in touches && k !in order ==>
      |order| == max && forall i :: 0 <= i < |order| ==> LastTouch(touches, k) < LastTouch(touches, order[i])
  }

  /** `order` is exactly the `max` most recently touched keys, the most recent last. */
  ghost predicate MostRecent(order: seq<string>, touches: seq<string>, max: nat) {
    |order| <= max && AllTouched(order, touches) && Ascending(order, touches) && MissingAreOlder(order, touches, max)
  }

  function DropOldest(order: seq<string>, max: nat): seq<string> {
    if |order| > max then order[1..] else order
  }

  lemma LastTouchAfter(touches: seq<string>, k: string, x: string)
    ensures LastTouch(touches + [k], x) == if x == k then |touches| else LastTouch(touches, x)
  {
    assert (touches + [k])[..|touches|] == touches;
  }

  lemma MoveToEndParts(order: seq<string>, k: string)
    ensures
      var moved := MoveToEnd(order, k);
      && |moved| == |order| + (if k in order then 0 else 1)
      && moved[|moved| - 1] == k
      && (forall x :: x in moved <==> x in order || x == k)
  {
    if k in order {
      var i := IndexOf(order, k);
      assert order == order[..i] + [k] + order[i + 1..];
    }
  }

  lemma MoveToEndAt(order: seq<string>, k: string, i: nat)
    requires i < |MoveToEnd(order, k)|
    ensures
      var at := if k in order then IndexOf(order, k) else |order|;
      MoveToEnd(order, k)[i] == if i == |MoveToEnd(order, k)| - 1 then k else order[if i < at then i else i + 1]
  {
    if k in order {
      TakenOutAt(order, IndexOf(order, k), i);
    }
  }

  lemma TakenOutAt(order: seq<string>, at: nat, i: nat)
    requires at < |order| && i < |order|
    ensures
      var moved := order[..at] + order[at + 1..] + [order[at]];
      moved[i] == if i == |order| - 1 then order[at] else order[if i < at then i else i + 1]
  {
  }

  /** Moving a key to the end keeps the rest in order. */
  lemma MoveToEndAscends(order: seq<string>, touches: seq<string>, k: string)
    requires Ascending(order, touches) && AllTouched(order, touches)
    ensures Ascending(MoveToEnd(order, k), touches + [k])
  {
    hide LastTouch, MoveToEnd;
    var moved := MoveToEnd(order, k);
    MoveToEndParts(order, k);
    forall i, j | 0 <= i < j < |moved|
      ensures LastTouch(touches + [k], moved[i]) < LastTouch(touches + [k], moved[j])
    {
      MoveToEndAt(order, k, i);
      MoveToEndAt(order, k, j);
      LastTouchAfter(touches, k, moved[i]);
      LastTouchAfter(touches, k, moved[j]);
    }
  }

  lemma DropOldestAscends(order: seq<string>, touches: seq<string>, max: nat)
    requires Ascending(order, touches)
    ensures Ascending(DropOldest(order, max), touches)
  {
    hide LastTouch;
  }

  /** Touching a key keeps the store at the most recently touched keys. */
  lemma TouchKeepsMostRecent(order: seq<string>, touches: seq<string>, k: string, max: nat)
    requires MostRecent(order, touches, max)
    ensures MostRecent(DropOldest(MoveToEnd(order, k), max), touches + [k], max)
  {
    hide MoveToEnd, LastTouch, Ascending, MissingAreOlder;
    var moved := MoveToEnd(order, k);
    MoveToEndParts(order, k);
    MoveToEndAscends(order, touches, k);
    DropOldestAscends(moved, touches + [k], max);
    forall i | 0 <= i < |DropOldest(moved, max)| ensures DropOldest(moved, max)[i] in touches + [k] {
      assert DropOldest(moved, max)[i] in moved;
    }
    TouchKeepsOlder(order, touches, k, max);
  }

  lemma TouchKeepsOlder(order: seq<string>, touches: seq<string>, k: string, max: nat)
    requires MostRecent(order, touches, max)
    ensures MissingAreOlder(DropOldest(MoveToEnd(order, k), max), touches + [k], max)
  {
    hide MoveToEnd, LastTouch, Ascending;
    var moved := MoveToEnd(order, k);
    var kept := DropOldest(moved, max);
    MoveToEndParts(order, k);
    MoveToEndAscends(order, touches, k);
    forall x | x in touches + [k] && x !in kept
      ensures |kept| == max
      ensures forall i :: 0 <= i < |kept| ==> LastTouch(touches + [k], x) < LastTouch(touches + [k], kept[i])
    {
      forall i | 0 <= i < |kept| ensures LastTouch(touches + [k], x) < LastTouch(touches + [k], kept[i]) {
        OlderThanKept(order, touches, k, max, x, i);
      }
    }
  }

  lemma OlderThanKept(order: seq<string>, touches: seq<string>, k: string, max: nat, x: string, i: nat)
    requires MostRecent(order, touches, max) && x in touches + [k]
    requires x !in DropOldest(MoveToEnd(order, k), max) && i < |DropOldest(MoveToEnd(order, k), max)|
    ensures LastTouch(touches + [k], x) < LastTouch(touches + [k], DropOldest(MoveToEnd(order, k), max)[i])
  {
    hide MoveToEnd, LastTouch;
    var moved := MoveToEnd(order, k);
    var kept := DropOldest(moved, max);
    MoveToEndParts(order, k);
    if x in moved {
      MoveToEndAscends(order, touches, k);
      assert x == moved[0] && kept[i] == moved[i + 1];
    } else {
      LastTouchAfter(touches, k, x);
      LastTouchAfter(touches, k, kept[i]);
      if kept[i] != k { assert kept[i] in order; }
    }
  }

  // ---- Exactly which keys are cached ----

  function DistinctAfter(touches: seq<string>, t: int): set<string>
    requires t >= -1
  {
    set i | t < i < |touches| :: touches[i]
  }

  /** Touched, with fewer than `max` other keys touched since. */
  predicate StillCached(touches: seq<string>, k: string, max: nat) {
    k in touches && |DistinctAfter(touches, LastTouch(touches, k))| < max
  }

  function Elements(s: seq<string>): set<string> {
    set x | x in s
  }

  lemma {:induction false} ElementsSize(s: seq<string>)
    ensures |Elements(s)| <= |s|
    ensures (forall i, j :: 0 <= i < j < |s| ==> s[i] != s[j]) ==> |Elements(s)| == |s|
  {
    if s == [] {
    } else {
      var rest := s[..|s| - 1];
      ElementsSize(rest);
      assert Elements(s) == Elements(rest) + {s[|s| - 1]};
    }
  }

  lemma TouchedLaterIff(touches: seq<string>, x: string, t: int)
    requires t >= -1
    ensures x in DistinctAfter(touches, t) <==> x in touches && LastTouch(touches, x) > t
  {
  }

  lemma {:induction false} CachedIff(order: seq<string>, touches: seq<string>, max: nat, k: string)
    requires MostRecent(order, touches, max)
    ensures k in order <==> StillCached(touches, k, max)
  {
    hide LastTouch;
    if k in order {
      var i :| 0 <= i < |order| && order[i] == k;
      YoungerAreAfter(order, touches, max, i);
      ElementsSize(order[i + 1..]);
      SubsetSize(DistinctAfter(touches, LastTouch(touches, k)), Elements(order[i + 1..]));
    } else if k in touches {
      PresentAreYounger(order, touches, max, k);
      ElementsSize(order);
      SubsetSize(Elements(order), DistinctAfter(touches, LastTouch(touches, k)));
    }
  }

  lemma YoungerAreAfter(order: seq<string>, touches: seq<string>, max: nat, i: nat)
    requires MostRecent(order, touches, max) && i < |order|
    ensures DistinctAfter(touches, LastTouch(touches, order[i])) <= Elements(order[i + 1..])
  {
    hide LastTouch, DistinctAfter;
    forall x | x in DistinctAfter(touches, LastTouch(touches, order[i])) ensures x in order[i + 1..] {
      TouchedLaterIff(touches, x, LastTouch(touches, order[i]));
      assert x in order;
      var j :| 0 <= j < |order| && order[j] == x;
      assert j > i;
      assert order[i + 1..][j - (i + 1)] == x;
    }
  }

  lemma PresentAreYounger(order: seq<string>, touches: seq<string>, max: nat, k: string)
    requires MostRecent(order, touches, max) && k in touches && k !in order
    ensures Elements(order) <= DistinctAfter(touches, LastTouch(touches, k)) && |order| == max
    ensures forall i, j :: 0 <= i < j < |order| ==> order[i] != order[j]
  {
    hide LastTouch, DistinctAfter;
    forall x | x in order ensures x in DistinctAfter(touches, LastTouch(touches, k)) {
      TouchedLaterIff(touches, x, LastTouch(touches, k));
    }
  }

  // ---- Any run of gets and puts ----

  datatype Op = Get(key: string) | Put(key: string, value: string)

  function AfterOp(store: Store, op: Op, max: nat): Store {
    match op
    case Get(k) => AfterGet(store, k)
    case Put(k, v) => AfterPut(store, k, v, max)
  }

  function Run(ops: seq<Op>, n: nat, max: nat): Store
    requires n <= |ops|
  {
    if n == 0 then EMPTY else AfterOp(Run(ops, n - 1, max), ops[n - 1], max)
  }

  /** The reference: a put touches its key, and so does a get of a key that is still cached. */
  function Touches(ops: seq<Op>, n: nat, max: nat): seq<string>
    requires n <= |ops|
  {
    if n == 0 then []
    else
      var before := Touches(ops, n - 1, max);
      if ops[n - 1].Put? || StillCached(before, ops[n - 1].key, max) then before + [ops[n - 1].key] else before
  }

  function LastPut(ops: seq<Op>, n: nat, k: string): Option<string>
    requires n <= |ops|
  {
    if n == 0 then None
    else if ops[n - 1].Put? && ops[n - 1].key == k then Some(ops[n - 1].value)
    else LastPut(ops, n - 1, k)
  }

  ghost predicate SameKeys(store: Store) {
    forall k :: k in store.order <==> k in store.values
  }

  lemma MovedIsDistinct(order: seq<string>, touches: seq<string>, k: string, max: nat)
    requires MostRecent(order, touches, max)
    ensures forall i, j :: 0 <= i < j < |MoveToEnd(order, k)| ==> MoveToEnd(order, k)[i] != MoveToEnd(order, k)[j]
  {
    hide LastTouch, MoveToEnd;
    MoveToEndAscends(order, touches, k);
  }

  lemma PutTouches(store: Store, touches: seq<string>, k: string, v: string, max: nat)
    requires MostRecent(store.order, touches, max) && SameKeys(store)
    ensures MostRecent(AfterPut(store, k, v, max).order, touches + [k], max) && SameKeys(AfterPut(store, k, v, max))
  {
    hide MoveToEnd, LastTouch, MostRecent, SameKeys;
    TouchKeepsMostRecent(store.order, touches, k, max);
    MovedIsDistinct(store.order, touches, k, max);
    PutKeepsKeys(store, k, v, max);
  }

  lemma PutKeepsKeys(store: Store, k: string, v: string, max: nat)
    requires SameKeys(store)
    requires forall i, j ::
      0 <= i < j < |MoveToEnd(store.order, k)| ==> MoveToEnd(store.order, k)[i] != MoveToEnd(store.order, k)[j]
    ensures SameKeys(AfterPut(store, k, v, max))
  {
    MoveToEndParts(store.order, k);
    hide MoveToEnd;
    var moved := MoveToEnd(store.order, k);
    if |moved| > max {
      forall x ensures x in moved[1..] <==> x in moved && x != moved[0] {
        if x in moved && x != moved[0] {
          var i :| 0 <= i < |moved| && moved[i] == x;
          assert moved[1..][i - 1] == x;
        }
      }
    }
  }

  lemma PutValues(store: Store, k: string, v: string, max: nat)
    ensures
      var after := AfterPut(store, k, v, max);
      forall x :: x in after.values ==>
        if x == k then after.values[x] == v else x in store.values && after.values[x] == store.values[x]
  {
    hide MoveToEnd;
  }

  lemma HitTouches(store: Store, touches: seq<string>, k: string, max: nat)
    requires MostRecent(store.order, touches, max) && SameKeys(store) && k in store.values
    ensures MostRecent(AfterGet(store, k).order, touches + [k], max) && SameKeys(AfterGet(store, k))
  {
    hide MoveToEnd, LastTouch, Ascending, MissingAreOlder, AllTouched;
    TouchKeepsMostRecent(store.order, touches, k, max);
    MoveToEndParts(store.order, k);
  }

  /**
   After any run of gets and puts the store holds exactly the `max` most recently touched keys, in recency
   order, each with the value last put under it; and a key is present exactly when it is still cached.
   */
  lemma {:induction false} StoreIsMostRecent(ops: seq<Op>, n: nat, max: nat)
    requires n <= |ops|
    ensures
      var store := Run(ops, n, max);
      && MostRecent(store.order, Touches(ops, n, max), max) && SameKeys(store)
      && (forall k :: k in store.values ==> LastPut(ops, n, k) == Some(store.values[k]))
      && (forall k :: k in store.values <==> StillCached(Touches(ops, n, max), k, max))
  {
    RunIsMostRecent(ops, n, max);
    hide MostRecent, StillCached, Run, Touches, LastPut, SameKeys, LastPuts;
    LastPutsAt(ops, n, Run(ops, n, max));
    forall k ensures k in Run(ops, n, max).values <==> StillCached(Touches(ops, n, max), k, max) {
      InStoreIff(Run(ops, n, max), Touches(ops, n, max), max, k);
    }
  }

  ghost predicate LastPuts(ops: seq<Op>, n: nat, store: Store)
    requires n <= |ops|
  {
    forall k :: k in store.values ==> LastPut(ops, n, k) == Some(store.values[k])
  }

  lemma LastPutsAt(ops: seq<Op>, n: nat, store: Store)
    requires n <= |ops| && LastPuts(ops, n, store)
    ensures forall k :: k in store.values ==> LastPut(ops, n, k) == Some(store.values[k])
  {
  }

  lemma {:induction false} RunIsMostRecent(ops: seq<Op>, n: nat, max: nat)
    requires n <= |ops|
    ensures
      var store := Run(ops, n, max);
      MostRecent(store.order, Touches(ops, n, max), max) && SameKeys(store) && LastPuts(ops, n, store)
  {
    hide MostRecent, StillCached, AfterPut, AfterGet, SameKeys, LastPuts, LastPut;
    if n == 0 {
      NothingPut(ops, max);
    } else {
      RunIsMostRecent(ops, n - 1, max);
      var store, touches, k := Run(ops, n - 1, max), Touches(ops, n - 1, max), ops[n - 1].key;
      InStoreIff(store, touches, max, k);
      LastPutStep(ops, n, store, max);
      if ops[n - 1].Put? {
        PutTouches(store, touches, k, ops[n - 1].value, max);
      } else if k in store.values {
        HitTouches(store, touches, k, max);
      } else {
        GetKeepsValues(store, k);
      }
    }
  }

  lemma LastPutStep(ops: seq<Op>, n: nat, store: Store, max: nat)
    requires 0 < n <= |ops| && LastPuts(ops, n - 1, store)
    ensures LastPuts(ops, n, AfterOp(store, ops[n - 1], max))
  {
    hide MoveToEnd;
  }

  lemma NothingPut(ops: seq<Op>, max: nat)
    ensures MostRecent(EMPTY.order, [], max) && SameKeys(EMPTY) && LastPuts(ops, 0, EMPTY)
  {
  }

  lemma GetKeepsValues(store: Store, k: string)
    ensures AfterGet(store, k).values == store.values
    ensures k !in store.values ==> AfterGet(store, k) == store
  {
  }

  lemma InStoreIff(store: Store, touches: seq<string>, max: nat, k: string)
    requires MostRecent(store.order, touches, max) && SameKeys(store)
    ensures k in store.values <==> StillCached(touches, k, max)
  {
    CachedIff(store.order, touches, max, k);
  }

  // ---- Any run of requests ----

  function RunnerStore(reqs: seq<Request>, n: nat, rt: Runtime, max: nat): Store
    requires n <= |reqs|
  {
    if n == 0 then EMPTY else AfterRequest(RunnerStore(reqs, n - 1, rt, max), reqs[n - 1], rt, max)
  }

  /** The keys of the requests whose reply was worth keeping. This does not depend on the cache. */
  function KeptKeys(reqs: seq<Request>, n: nat, rt: Runtime): seq<string>
    requires n <= |reqs|
  {
    if n == 0 then []
    else KeptKeys(reqs, n - 1, rt) + if Worthwhile(reqs[n - 1], rt) then [rt.Key(reqs[n - 1])] else []
  }

  /** The digest does not confuse the key strings of two cacheable requests. */
  predicate Separated(a: Request, b: Request, rt: Runtime) {
    Cacheable(a) && Cacheable(b) && rt.Key(a) == rt.Key(b) ==> a.tool + ":" + a.params == b.tool + ":" + b.params
  }

  predicate CollisionFree(reqs: seq<Request>, rt: Runtime) {
    forall i, j :: 0 <= i < |reqs| && 0 <= j < |reqs| ==> Separated(reqs[i], reqs[j], rt)
  }

  /** `v` is the filtered output of request `j`, kept under `k`. */
  predicate KeptFrom(reqs: seq<Request>, j: nat, rt: Runtime, k: string, v: string)
    requires j < |reqs|
  {
    Worthwhile(reqs[j], rt) && rt.Key(reqs[j]) == k && v == rt.safe(rt.run(reqs[j].tool, reqs[j].params).raw)
  }

  ghost predicate Sound(store: Store, reqs: seq<Request>, rt: Runtime) {
    forall k :: k in store.values ==> exists j :: 0 <= j < |reqs| && KeptFrom(reqs, j, rt, k, store.values[k])
  }

  /** No registered tool has a colon in its name, so the first colon of a key string ends the tool's name. */
  lemma KeyStringIsInjective(a: Request, b: Request)
    requires a.tool in TOOL_REGISTRY && b.tool in TOOL_REGISTRY
    requires a.tool + ":" + a.params == b.tool + ":" + b.params
    ensures a.tool == b.tool && a.params == b.params
  {
    var s := a.tool + ":" + a.params;
    assert s[|a.tool|] == ':' && s[|b.tool|] == ':';
    NamesHaveNoColon(a.tool);
    NamesHaveNoColon(b.tool);
    assert forall i :: 0 <= i < |a.tool| ==> s[i] == a.tool[i];
    assert forall i :: 0 <= i < |b.tool| ==> s[i] == b.tool[i];
    assert |a.tool| == |b.tool|;
    assert a.tool == s[..|a.tool|] && a.params == s[|a.tool| + 1..];
    assert b.tool == s[..|b.tool|] && b.params == s[|b.tool| + 1..];
  }

  lemma NamesHaveNoColon(name: string)
    requires name in TOOL_REGISTRY
    ensures ':' !in name
  {
  }

  /** A value found under a request's key is the output that running the request would give. */
  lemma HitIsTheAnswer(store: Store, reqs: seq<Request>, rt: Runtime, i: nat)
    requires Sound(store, reqs, rt) && CollisionFree(reqs, rt) && i < |reqs| && Hit(store, reqs[i], rt)
    ensures Worthwhile(reqs[i], rt)
    ensures store.values[rt.Key(reqs[i])] == rt.safe(rt.run(reqs[i].tool, reqs[i].params).raw)
  {
    var k := rt.Key(reqs[i]);
    var j :| 0 <= j < |reqs| && KeptFrom(reqs, j, rt, k, store.values[k]);
    KeyStringIsInjective(reqs[i], reqs[j]);
  }

  lemma {:induction false} RunnerInvariant(reqs: seq<Request>, n: nat, rt: Runtime, max: nat)
    requires n <= |reqs| && CollisionFree(reqs, rt)
    ensures
      var store := RunnerStore(reqs, n, rt, max);
      MostRecent(store.order, KeptKeys(reqs, n, rt), max) && SameKeys(store) && Sound(store, reqs, rt)
  {
    hide MostRecent, SameKeys, Sound, CollisionFree, AfterRequest, Worthwhile;
    if n == 0 {
      NothingCached(reqs, rt, max);
    } else {
      RunnerInvariant(reqs, n - 1, rt, max);
      RequestStep(RunnerStore(reqs, n - 1, rt, max), KeptKeys(reqs, n - 1, rt), reqs, n - 1, rt, max);
    }
  }

  lemma NothingCached(reqs: seq<Request>, rt: Runtime, max: nat)
    ensures MostRecent(EMPTY.order, [], max) && SameKeys(EMPTY) && Sound(EMPTY, reqs, rt)
  {
  }

  lemma RequestStep(store: Store, touches: seq<string>, reqs: seq<Request>, i: nat, rt: Runtime, max: nat)
    requires i < |reqs| && CollisionFree(reqs, rt)
    requires MostRecent(store.order, touches, max) && SameKeys(store) && Sound(store, reqs, rt)
    ensures
      var after := AfterRequest(store, reqs[i], rt, max);
      && MostRecent(after.order, touches + (if Worthwhile(reqs[i], rt) then [rt.Key(reqs[i])] else []), max)
      && SameKeys(after) && Sound(after, reqs, rt)
  {
    hide MostRecent, AfterGet, AfterPut, CollisionFree, SameKeys;
    var k := rt.Key(reqs[i]);
    if Hit(store, reqs[i], rt) {
      HitIsTheAnswer(store, reqs, rt, i);
      HitTouches(store, touches, k, max);
      GetKeepsValues(store, k);
    } else if Worthwhile(reqs[i], rt) {
      var v := rt.safe(rt.run(reqs[i].tool, reqs[i].params).raw);
      PutTouches(store, touches, k, v, max);
      PutValues(store, k, v, max);
      assert KeptFrom(reqs, i, rt, k, v);
    } else {
      assert touches + [] == touches;
    }
  }

  /** The same reply, but for whether and how fast it came from the cache. */
  predicate SameAnswer(a: Reply, b: Reply) {
    if a.Executed? && b.Executed? then a.tool == b.tool && a.output == b.output else a == b
  }

  /**
   For deterministic tools and a digest that tells the cacheable requests apart, every reply of any run of
   requests is the uncached one; and it comes from the cache exactly when the request is worth keeping and
   fewer than `max` other worthwhile keys were served since this key last was.
   */
  lemma RepliesAreUncached(reqs: seq<Request>, i: nat, rt: Runtime, max: nat, elapsedMs: nat)
    requires i < |reqs| && CollisionFree(reqs, rt)
    ensures
      var reply := CachedReply(RunnerStore(reqs, i, rt, max), reqs[i], rt, elapsedMs);
      && SameAnswer(reply, UncachedReply(reqs[i], rt, elapsedMs))
      && (reply.Executed? && reply.cached
          <==> Worthwhile(reqs[i], rt) && StillCached(KeptKeys(reqs, i, rt), rt.Key(reqs[i]), max))
  {
    var store := RunnerStore(reqs, i, rt, max);
    RunnerInvariant(reqs, i, rt, max);
    InStoreIff(store, KeptKeys(reqs, i, rt), max, rt.Key(reqs[i]));
    hide MostRecent, SameKeys, Sound, CollisionFree, StillCached, RunnerStore, KeptKeys;
    if Hit(store, reqs[i], rt) { HitIsTheAnswer(store, reqs, rt, i); }
  }
}
