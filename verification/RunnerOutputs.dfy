/**
 What leaves the tool runner (omokoda-simulation/server.py): over any run of requests every output is filtered, only
 the permitted are served, and only tools that read are served from the cache.
 */
module RunnerOutputs {
  import opened ResultCache
  import opened ResultCacheProperties
  import opened Wrappers

  /** The registry has the tool, and the request's tier is enough for it. */
  predicate Granted(req: Request) {
    req.tool in TOOL_REGISTRY && TOOL_REGISTRY[req.tool].requiredTier <= req.tier
  }

  /**
   Over any run of requests, an output is given exactly when the tool is registered, the tier is enough and the tool
   returns; and it is then the filtered text of that very request, from the cache or not, cacheable or not.
   */
  lemma OutputIsFiltered(reqs: seq<Request>, i: nat, rt: Runtime, max: nat, elapsedMs: nat)
    requires i < |reqs| && CollisionFree(reqs, rt)
    ensures
      var req, reply := reqs[i], CachedReply(RunnerStore(reqs, i, rt, max), reqs[i], rt, elapsedMs);
      && (reply.Executed? <==> Granted(req) && rt.run(req.tool, req.params).Returned?)
      && (reply.Executed? ==>
            && reply.tool == req.tool && reply.output == rt.safe(rt.run(req.tool, req.params).raw)
            && reply.executionTimeMs == if reply.cached then 0 else elapsedMs)
      && (Granted(req) && rt.run(req.tool, req.params).Raised? ==>
            reply == ToolFailed(rt.run(req.tool, req.params).error))
  {
    var store := RunnerStore(reqs, i, rt, max);
    RunnerInvariant(reqs, i, rt, max);
    hide MostRecent, SameKeys, Sound, CollisionFree, RunnerStore, KeptKeys;
    if Hit(store, reqs[i], rt) { HitIsTheAnswer(store, reqs, rt, i); }
  }

  // ---- Tools that answer differently each time ----

  /** A request, and what its tool does this time if it is run. */
  datatype Call = Call(req: Request, outcome: Outcome)

  function RuntimeAt(rt: Runtime, call: Call): Runtime {
    rt.(run := (tool, params) => call.outcome)
  }

  function StoreAfter(calls: seq<Call>, n: nat, rt: Runtime, max: nat): Store
    requires n <= |calls|
  {
    if n == 0 then EMPTY
    else AfterRequest(StoreAfter(calls, n - 1, rt, max), calls[n - 1].req, RuntimeAt(rt, calls[n - 1]), max)
  }

  function ReplyAt(calls: seq<Call>, i: nat, rt: Runtime, max: nat, elapsedMs: nat): Reply
    requires i < |calls|
  {
    CachedReply(StoreAfter(calls, i, rt, max), calls[i].req, RuntimeAt(rt, calls[i]), elapsedMs)
  }

  /** `v` is the filtered text of call `j`, whose tool only reads and may be cached, under the digest of its key. */
  ghost predicate StoredBy(calls: seq<Call>, j: nat, rt: Runtime, k: string, v: string)
    requires j < |calls|
  {
    var req := calls[j].req;
    && Granted(req) && TOOL_REGISTRY[req.tool].cacheable && !TOOL_REGISTRY[req.tool].write
    && calls[j].outcome.Returned? && v == rt.safe(calls[j].outcome.raw)
    && k == rt.digest(req.tool + ":" + req.params)
  }

  lemma {:induction false} StoredByACall(calls: seq<Call>, n: nat, rt: Runtime, max: nat, k: string) returns (j: nat)
    requires n <= |calls| && k in StoreAfter(calls, n, rt, max).values
    ensures j < n && StoredBy(calls, j, rt, k, StoreAfter(calls, n, rt, max).values[k])
  {
    hide AfterPut, AfterGet;
    var store, call := StoreAfter(calls, n - 1, rt, max), calls[n - 1];
    var now := RuntimeAt(rt, call);
    GetKeepsValues(store, now.Key(call.req));
    if Worthwhile(call.req, now) { PutValues(store, now.Key(call.req), rt.safe(call.outcome.raw), max); }
    if k in store.values && StoreAfter(calls, n, rt, max).values[k] == store.values[k] {
      j := StoredByACall(calls, n - 1, rt, max, k);
    } else {
      j := n - 1;
    }
  }

  /**
   Whatever the tools do and however the digest collides, an output is the filtered text of this call, or of an
   earlier one with the same digest whose tool only reads; so what holds of all filtered texts holds of it.
   */
  lemma OutputsAreFiltered(calls: seq<Call>, i: nat, rt: Runtime, max: nat, elapsedMs: nat, clean: string -> bool)
    returns (j: nat)
    requires i < |calls| && ReplyAt(calls, i, rt, max, elapsedMs).Executed?
    ensures
      var reply := ReplyAt(calls, i, rt, max, elapsedMs);
      && Granted(calls[i].req) && j <= i && calls[j].outcome.Returned?
      && reply.output == rt.safe(calls[j].outcome.raw)
      && (if reply.cached
          then j < i && StoredBy(calls, j, rt, rt.digest(calls[i].req.tool + ":" + calls[i].req.params), reply.output)
          else j == i)
      && ((forall raw :: clean(rt.safe(raw))) ==> clean(reply.output))
  {
    j := i;
    var key := rt.Key(calls[i].req);
    if Hit(StoreAfter(calls, i, rt, max), calls[i].req, RuntimeAt(rt, calls[i])) {
      j := StoredByACall(calls, i, rt, max, key);
    }
  }

  lemma {:induction false} StoreAfterIsRecent(calls: seq<Call>, n: nat, rt: Runtime, max: nat)
    returns (touches: seq<string>)
    requires n <= |calls|
    ensures
      var store := StoreAfter(calls, n, rt, max);
      MostRecent(store.order, touches, max) && SameKeys(store)
  {
    hide MostRecent, SameKeys, AfterPut, AfterGet;
    if n == 0 {
      touches := [];
      NothingCached([], rt, max);
    } else {
      var store, call := StoreAfter(calls, n - 1, rt, max), calls[n - 1];
      var now := RuntimeAt(rt, call);
      var k := now.Key(call.req);
      touches := StoreAfterIsRecent(calls, n - 1, rt, max);
      if Hit(store, call.req, now) {
        HitTouches(store, touches, k, max);
        touches := touches + [k];
      } else if Worthwhile(call.req, now) {
        PutTouches(store, touches, k, rt.safe(call.outcome.raw), max);
        touches := touches + [k];
      }
    }
  }

  /** What was just put is there, if there is any room at all. */
  lemma JustPut(store: Store, touches: seq<string>, k: string, v: string, max: nat)
    requires max >= 1 && MostRecent(store.order, touches, max) && SameKeys(store)
    ensures k in AfterPut(store, k, v, max).values && AfterPut(store, k, v, max).values[k] == v
  {
    hide MostRecent, SameKeys, AfterPut;
    PutTouches(store, touches, k, v, max);
    InStoreIff(AfterPut(store, k, v, max), touches + [k], max, k);
    PutValues(store, k, v, max);
    TouchedLast(touches, k);
  }

  lemma TouchedLast(touches: seq<string>, k: string)
    ensures k in touches + [k] && DistinctAfter(touches + [k], LastTouch(touches + [k], k)) == {}
  {
  }

  /** A reading, cacheable tool that has just returned is answered from the cache when it is asked again at once. */
  lemma RepeatIsCached(calls: seq<Call>, i: nat, rt: Runtime, max: nat, elapsedMs: nat)
    requires i + 1 < |calls| && max >= 1 && calls[i].req == calls[i + 1].req
    requires ReplyAt(calls, i, rt, max, elapsedMs).Executed?
    requires TOOL_REGISTRY[calls[i].req.tool].cacheable && !TOOL_REGISTRY[calls[i].req.tool].write
    ensures ReplyAt(calls, i + 1, rt, max, elapsedMs)
         == Executed(calls[i].req.tool, ReplyAt(calls, i, rt, max, elapsedMs).output, true, 0)
  {
    hide MostRecent, SameKeys, AfterPut;
    var store, now := StoreAfter(calls, i, rt, max), RuntimeAt(rt, calls[i]);
    var touches := StoreAfterIsRecent(calls, i, rt, max);
    GetKeepsValues(store, now.Key(calls[i].req));
    if calls[i].outcome.Returned? {
      JustPut(store, touches, now.Key(calls[i].req), rt.safe(calls[i].outcome.raw), max);
    }
  }
}
