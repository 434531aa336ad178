/**
 The tool runner's result cache (omokoda-simulation/server.py): MemCell, an ordered dictionary used as a
 least-recently-used cache, and the cached path of `execute`. The digest behind cache keys, the output
 filter and the tools themselves are parameters.
 */
module ResultCache {
  import opened Wrappers

  /** An ordered dictionary: its keys from the oldest to the newest, and its values. */
  datatype Store = Store(order: seq<string>, values: map<string, string>)

  const EMPTY := Store([], map[])

  function IndexOf(order: seq<string>, k: string): (i: nat)
    requires k in order
    ensures i < |order| && order[i] == k
  {
    if order[0] == k then 0 else 1 + IndexOf(order[1..], k)
  }

  function MoveToEnd(order: seq<string>, k: string): seq<string> {
    if k in order then order[..IndexOf(order, k)] + order[IndexOf(order, k) + 1..] + [k] else order + [k]
  }

  /** The store after `get`: a hit becomes the newest entry. */
  function AfterGet(store: Store, k: string): Store {
    if k in store.values then store.(order := MoveToEnd(store.order, k)) else store
  }

  /** The store after `put`: the entry becomes the newest, and the oldest leaves when there are too many. */
  function AfterPut(store: Store, k: string, v: string, max: nat): Store {
    var order, values := MoveToEnd(store.order, k), store.values[k := v];
    if |order| > max then Store(order[1..], values - {order[0]}) else Store(order, values)
  }

  class MemCell {
    var store: Store
    const max: nat

    constructor (maxSize: nat := 256)
      ensures store == EMPTY && max == maxSize
    {
      store, max := EMPTY, maxSize;
    }

    method Get(k: string) returns (hit: Option<string>)
      modifies this
      ensures hit == if k in old(store).values then Some(old(store).values[k]) else None
      ensures store == AfterGet(old(store), k)
    {
      if k in store.values {
        store := store.(order := MoveToEnd(store.order, k));
        return Some(store.values[k]);
      }
      hit := None;
    }

    method Put(k: string, v: string)
      modifies this
      ensures store == AfterPut(old(store), k, v, max)
    {
      store := store.(values := store.values[k := v]);
      store := store.(order := MoveToEnd(store.order, k));
      if |store.order| > max {
        store := Store(store.order[1..], store.values - {store.order[0]});
      }
    }
  }

  // ---- Serving requests ----

  datatype Tool = Tool(requiredTier: int, write: bool, cacheable: bool)

  const TOOL_REGISTRY: map<string, Tool> := map[
    "web_search" := Tool(0, false, true),
    "code_runner" := Tool(2, true, false),
    "data_analysis" := Tool(1, false, true),
    "cosmos" := Tool(3, false, false)]

  datatype Request = Request(tool: string, params: string, tier: int)

  datatype Reply =
    | Executed(tool: string, output: string, cached: bool, executionTimeMs: nat)
    | ToolNotFound
    | TierTooLow(requiredTier: int, providedTier: int)
    | ToolFailed(error: string)

  datatype Outcome = Returned(raw: string) | Raised(error: string)

  /** What the runner is built from: the tools, the output filter and the key digest. */
  datatype Runtime = Runtime(run: (string, string) -> Outcome, safe: string -> string, digest: string -> string) {
    function Key(req: Request): string {
      digest(req.tool + ":" + req.params)
    }
  }

  predicate Cacheable(req: Request) {
    req.tool in TOOL_REGISTRY && TOOL_REGISTRY[req.tool].cacheable && !TOOL_REGISTRY[req.tool].write
  }

  predicate Permitted(req: Request) {
    req.tool in TOOL_REGISTRY && req.tier >= TOOL_REGISTRY[req.tool].requiredTier
  }

  /** The reply of a runner that has no cache. */
  function UncachedReply(req: Request, rt: Runtime, elapsedMs: nat): Reply {
    if req.tool !in TOOL_REGISTRY then ToolNotFound
    else if req.tier < TOOL_REGISTRY[req.tool].requiredTier
        then TierTooLow(TOOL_REGISTRY[req.tool].requiredTier, req.tier)
    else match rt.run(req.tool, req.params)
      case Raised(error) => ToolFailed(error)
      case Returned(raw) => Executed(req.tool, rt.safe(raw), false, elapsedMs)
  }

  predicate Hit(store: Store, req: Request, rt: Runtime) {
    Permitted(req) && Cacheable(req) && rt.Key(req) in store.values
  }

  function CachedReply(store: Store, req: Request, rt: Runtime, elapsedMs: nat): Reply {
    if Hit(store, req, rt) then Executed(req.tool, store.values[rt.Key(req)], true, 0)
    else UncachedReply(req, rt, elapsedMs)
  }

  /** Requests whose reply is worth keeping: a permitted, cacheable, successful run. */
  predicate Worthwhile(req: Request, rt: Runtime) {
    Permitted(req) && Cacheable(req) && rt.run(req.tool, req.params).Returned?
  }

  function AfterRequest(store: Store, req: Request, rt: Runtime, max: nat): Store {
    if Hit(store, req, rt) then AfterGet(store, rt.Key(req))
    else if Worthwhile(req, rt) then AfterPut(store, rt.Key(req), rt.safe(rt.run(req.tool, req.params).raw), max)
    else store
  }

  class ToolRunner {
    const cache: MemCell

    constructor (cell: MemCell)
      ensures cache == cell
    {
      cache := cell;
    }

    method Execute(req: Request, rt: Runtime, elapsedMs: nat) returns (reply: Reply)
      modifies cache
      ensures reply == CachedReply(old(cache.store), req, rt, elapsedMs)
      ensures cache.store == AfterRequest(old(cache.store), req, rt, cache.max)
    {
      if req.tool !in TOOL_REGISTRY {
        return ToolNotFound;
      }
      var entry := TOOL_REGISTRY[req.tool];
      if req.tier < entry.requiredTier {
        return TierTooLow(entry.requiredTier, req.tier);
      }
      if entry.cacheable && !entry.write {
        var hit := cache.Get(rt.Key(req));
        if hit.Some? {
          return Executed(req.tool, hit.value, true, 0);
        }
      }
      match rt.run(req.tool, req.params) {
        case Raised(error) =>
          return ToolFailed(error);
        case Returned(raw) =>
          var output := rt.safe(raw);
          if entry.cacheable && !entry.write {
            cache.Put(rt.Key(req), output);
          }
          reply := Executed(req.tool, output, false, elapsedMs);
      }
    }
  }
}
