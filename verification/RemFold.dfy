/**
 The REM cycle's lossless fold (omokoda-core/src/dream.rs) over the memory directory
 (omokoda-core/src/memory/memdir.rs). Vocabulary, entity and content-hash indexes, swarm entries,
 narrative text and tags are not modelled; neither is the order of ids inside a fold.
 */
module RemFold {
  import opened Arithmetic
  import opened RemSchedule
  import opened Wrappers

  datatype OduEntry = OduEntry(
    id: string,
    content: string,
    importance: real,
    createdAt: nat,
    lastAccessed: nat,
    path: string)

  type Entries = map<string, OduEntry>
  type Folds = map<string, seq<OduEntry>>

  datatype RemConfig = RemConfig(overdueAfter: nat, noiseImportance: real, minFoldCluster: nat)

  function Size(entries: Entries): nat { |entries| }

  function Card(ids: set<string>): nat { |ids| }

  // ---- Macro identifiers: rem:<path>:<now> ----

  function Digit(d: nat): char
    requires d < 10
  {
    '0' + d as char
  }

  function Decimal(n: nat): (s: string)
    ensures |s| > 0
  {
    if n < 10 then [Digit(n)] else Decimal(n / 10) + [Digit(n % 10)]
  }

  function MacroId(path: string, now: nat): string {
    "rem:" + path + ":" + Decimal(now)
  }

  lemma {:induction false} DecimalIsInjective(m: nat, n: nat)
    requires Decimal(m) == Decimal(n)
    ensures m == n
  {
    var s, t := Decimal(m), Decimal(n);
    assert s[|s| - 1] == Digit(m % 10) && t[|t| - 1] == Digit(n % 10);
    if m >= 10 && n >= 10 {
      assert s[..|s| - 1] == Decimal(m / 10) && t[..|t| - 1] == Decimal(n / 10);
      DecimalIsInjective(m / 10, n / 10);
    }
  }

  lemma {:induction false} DecimalHasNoColon(n: nat)
    ensures ':' !in Decimal(n)
  {
    if n >= 10 { DecimalHasNoColon(n / 10); }
  }

  lemma LastColonSplits(x: string, a: string, y: string, b: string)
    requires ':' !in a && ':' !in b && x + ":" + a == y + ":" + b
    ensures x == y && a == b
  {
    var s := x + ":" + a;
    assert s[|x|] == ':' && s[|y|] == ':';
    assert x == s[..|x|] && y == s[..|y|];
    assert a == s[|x| + 1..] && b == s[|y| + 1..];
  }

  /** The last colon separates path from time, so a macro id determines both. */
  lemma MacroIdIsInjective(p: string, m: nat, q: string, n: nat)
    requires MacroId(p, m) == MacroId(q, n)
    ensures p == q && m == n
  {
    DecimalHasNoColon(m);
    DecimalHasNoColon(n);
    LastColonSplits("rem:" + p, Decimal(m), "rem:" + q, Decimal(n));
    DecimalIsInjective(m, n);
    assert p == ("rem:" + p)[4..] && q == ("rem:" + q)[4..];
  }

  // ---- Specification ----

  ghost predicate KeyedById(entries: Entries) {
    forall id :: id in entries ==> entries[id].id == id
  }

  /** None of the macro ids that a cycle at `now` would use is taken, by an entry or by a fold. */
  ghost predicate FreshMacroIds(entries: Entries, folds: Folds, config: RemConfig, now: nat) {
    var macros := MacroIds(FoldedPaths(entries, config), now);
    macros !! entries.Keys && macros !! folds.Keys
  }

  function Noise(entries: Entries, line: real): set<string> {
    set id | id in entries && entries[id].importance <= line
  }

  function Cluster(entries: Entries, line: real, path: string): set<string> {
    set id | id in entries && entries[id].importance <= line && entries[id].path == path
  }

  function NoisePaths(entries: Entries, line: real): set<string> {
    set id | id in Noise(entries, line) :: entries[id].path
  }

  /** The paths whose noise clusters are large enough to fold. */
  function FoldedPaths(entries: Entries, config: RemConfig): set<string> {
    set path | path in NoisePaths(entries, config.noiseImportance)
             && |Cluster(entries, config.noiseImportance, path)| >= config.minFoldCluster
  }

  /** The entries absorbed when the clusters of `paths` are folded. */
  function FoldedIds(entries: Entries, line: real, paths: set<string>): set<string> {
    set id | id in entries && entries[id].importance <= line && entries[id].path in paths
  }

  function MacroIds(paths: set<string>, now: nat): set<string> {
    set path | path in paths :: MacroId(path, now)
  }

  /** Unfolded noise well below the line. */
  function PrunedIds(entries: Entries, config: RemConfig): set<string> {
    set id | id in entries && entries[id].importance < config.noiseImportance / 2.0
          && id !in FoldedIds(entries, config.noiseImportance, FoldedPaths(entries, config))
  }

  /** `micro` lists exactly the entries `ids`, unchanged and without repetition. */
  ghost predicate Lists(micro: seq<OduEntry>, entries: Entries, ids: set<string>) {
    && (forall i ::
          0 <= i < |micro| ==> micro[i].id in ids && micro[i].id in entries && entries[micro[i].id] == micro[i])
    && (forall id :: id in ids ==> id in entries && entries[id] in micro)
    && (forall i, j :: 0 <= i < j < |micro| ==> micro[i].id != micro[j].id)
  }

  /** The macro node's importance is the noise line, or a tenth above the largest (non-negative) one it absorbs. */
  ghost predicate IsMacro(node: OduEntry, path: string, now: nat, entries: Entries, line: real) {
    var ids := Cluster(entries, line, path);
    && node.id == MacroId(path, now) && node.path == path
    && node.importance >= line && node.importance >= 0.1
    && (forall id :: id in ids ==> node.importance >= entries[id].importance + 0.1)
    && (node.importance == line || node.importance == 0.1
        || exists id :: id in ids && node.importance == entries[id].importance + 0.1)
  }

  /** The live entries after folding: untouched ones unchanged, macro nodes in place of the folded ones. */
  ghost predicate FoldedLive(before: Entries, after: Entries, line: real, now: nat, paths: set<string>) {
    var gone := FoldedIds(before, line, paths);
    && after.Keys == (before.Keys - gone) + MacroIds(paths, now)
    && forall id :: id in before && id !in gone ==> id in after && after[id] == before[id]
  }

  ghost predicate FoldedMacros(before: Entries, after: Entries, line: real, now: nat, paths: set<string>) {
    forall path :: path in paths ==>
      MacroId(path, now) in after && IsMacro(after[MacroId(path, now)], path, now, before, line)
  }

  /** The archive after folding: earlier folds unchanged, one new fold per path. */
  ghost predicate FoldedArchive(before: Entries, folds: Folds, folds': Folds, line: real, now: nat,
                                paths: set<string>)
  {
    && folds'.Keys == folds.Keys + MacroIds(paths, now)
    && (forall id :: id in folds ==> id in folds' && folds'[id] == folds[id])
    && forall path :: path in paths ==>
         MacroId(path, now) in folds' && Lists(folds'[MacroId(path, now)], before, Cluster(before, line, path))
  }

  /** The directory after the clusters of `paths` have been folded, and nothing pruned yet. */
  ghost predicate Folding(before: Entries, folds: Folds, after: Entries, folds': Folds,
                          line: real, now: nat, paths: set<string>)
  {
    && FoldedLive(before, after, line, now, paths)
    && FoldedMacros(before, after, line, now, paths)
    && FoldedArchive(before, folds, folds', line, now, paths)
  }

  function Kept(entries: Entries, minImportance: real): Entries {
    map id | id in entries && entries[id].importance >= minImportance :: entries[id]
  }

  /** The live entries after a whole cycle: folded and pruned ones gone, macro nodes in, the rest unchanged. */
  ghost predicate CycleLive(before: Entries, after: Entries, config: RemConfig, now: nat) {
    var paths := FoldedPaths(before, config);
    var gone := FoldedIds(before, config.noiseImportance, paths) + PrunedIds(before, config);
    && after.Keys == (before.Keys - gone) + MacroIds(paths, now)
    && forall id :: id in before && id !in gone ==> id in after && after[id] == before[id]
  }

  /** A whole cycle: every large enough noise cluster folded, then what is left of the noise pruned. */
  ghost predicate RemCycle(before: Entries, folds: Folds, after: Entries, folds': Folds, config: RemConfig, now: nat) {
    && CycleLive(before, after, config, now)
    && FoldedMacros(before, after, config.noiseImportance, now, FoldedPaths(before, config))
    && FoldedArchive(before, folds, folds', config.noiseImportance, now, FoldedPaths(before, config))
  }

  const DECAY_PER_DAY := 0.1

  function Decay(elapsedSecs: nat): (decay: real)
    ensures decay >= 0.0
  {
    DECAY_PER_DAY * (elapsedSecs as real / SECONDS_PER_DAY as real)
  }

  function Faded(entry: OduEntry, decay: real): OduEntry {
    entry.(importance := RealMax(entry.importance - decay, 0.0))
  }

  function Aged(entries: Entries, elapsedSecs: nat): Entries {
    map id | id in entries :: Faded(entries[id], Decay(elapsedSecs))
  }

  lemma MinusOneMore(entries: Entries, gone: set<string>, id: string)
    ensures (entries - gone) - {id} == entries - (gone + {id})
  {
  }

  lemma KeptCount(entries: Entries, minImportance: real)
    ensures
      var stale := set id | id in entries && entries[id].importance < minImportance;
      Kept(entries, minImportance) == entries - stale && |Kept(entries, minImportance)| == |entries| - |stale|
  {
    var stale := set id | id in entries && entries[id].importance < minImportance;
    assert (entries - stale).Keys + stale == entries.Keys;
    assert |(entries - stale).Keys| + |stale| == |entries.Keys|;
  }

  // ---- The directory ----

  class OduDirectory {
    var entries: Entries
    var archivedFolds: Folds

    constructor ()
      ensures entries == map[] && archivedFolds == map[]
    {
      entries, archivedFolds := map[], map[];
    }

    method Insert(entry: OduEntry)
      modifies this`entries
      ensures entries == old(entries)[entry.id := entry]
    {
      entries := entries[entry.id := entry];
    }

    method Remove(id: string) returns (removed: Option<OduEntry>)
      modifies this`entries
      ensures removed == if id in old(entries) then Some(old(entries)[id]) else None
      ensures entries == old(entries) - {id}
    {
      removed := if id in entries then Some(entries[id]) else None;
      entries := entries - {id};
    }

    method PruneStale(minImportance: real) returns (count: nat)
      modifies this`entries
      ensures entries == Kept(old(entries), minImportance)
      ensures count == Size(old(entries)) - Size(entries)
    {
      var stale := set id | id in entries && entries[id].importance < minImportance;
      count := |stale|;
      KeptCount(entries, minImportance);
      hide Kept;
      var gone := {};
      while stale - gone != {}
        invariant gone <= stale && entries == old(entries) - gone
        decreases stale - gone
      {
        var id :| id in stale - gone;
        MinusOneMore(old(entries), gone, id);
        entries := entries - {id};
        gone := gone + {id};
      }
      assert gone == stale;
    }

    /** Every entry loses importance by the days elapsed, down to zero. */
    method AgeEntries(elapsedSecs: nat)
      modifies this`entries
      ensures entries == Aged(old(entries), elapsedSecs)
    {
      var decay := Decay(elapsedSecs);
      ghost var before := entries;
      var todo := entries.Keys;
      while todo != {}
        invariant todo <= before.Keys && entries.Keys == before.Keys
        invariant forall id ::
          id in before ==> entries[id] == if id in todo then before[id] else Faded(before[id], decay)
        decreases todo
      {
        var id :| id in todo;
        entries := entries[id := Faded(entries[id], decay)];
        todo := todo - {id};
      }
    }

    method ArchiveFold(macroId: string, micro: seq<OduEntry>)
      modifies this`archivedFolds
      ensures archivedFolds == if micro == [] then old(archivedFolds) else old(archivedFolds)[macroId := micro]
    {
      if micro != [] {
        archivedFolds := archivedFolds[macroId := micro];
      }
    }

    /** Restores a fold's entries, touched at `clock`, in place of its macro node. */
    method Unfold(macroId: string, clock: nat) returns (restored: Option<nat>)
      modifies this
      ensures restored ==
        if macroId in old(archivedFolds) then Some(|old(archivedFolds)[macroId]|) else None
      ensures Stored(entries, archivedFolds) == Unfolded(Stored(old(entries), old(archivedFolds)), macroId, clock)
    {
      if macroId !in archivedFolds {
        return None;
      }
      var micro := archivedFolds[macroId];
      archivedFolds := archivedFolds - {macroId};
      entries := entries - {macroId};
      for i := 0 to |micro|
        invariant archivedFolds == old(archivedFolds) - {macroId}
        invariant entries == Restored(old(entries) - {macroId}, micro, i, clock)
      {
        var entry := micro[i].(lastAccessed := clock);
        entries := entries[entry.id := entry];
      }
      restored := Some(|micro|);
    }
  }

  function Restored(entries: Entries, micro: seq<OduEntry>, n: nat, clock: nat): Entries
    requires n <= |micro|
  {
    if n == 0 then entries
    else Restored(entries, micro, n - 1, clock)[micro[n - 1].id := micro[n - 1].(lastAccessed := clock)]
  }

  datatype Stored = Stored(entries: Entries, folds: Folds)

  function Unfolded(dir: Stored, macroId: string, clock: nat): Stored {
    if macroId !in dir.folds then dir
    else Stored(Restored(dir.entries - {macroId}, dir.folds[macroId], |dir.folds[macroId]|, clock),
        dir.folds - {macroId})
  }

  // ---- The folds of a cycle, one by one ----

  /** One fold: the path of its cluster, the macro node and the entries archived under it. */
  datatype FoldRecord = FoldRecord(path: string, node: OduEntry, micro: seq<OduEntry>)

  function FoldedOnce(dir: Stored, before: Entries, line: real, fold: FoldRecord): Stored {
    Stored((dir.entries - Cluster(before, line, fold.path))[fold.node.id := fold.node],
           dir.folds[fold.node.id := fold.micro])
  }

  /** The directory after the first `n` folds. A taken macro id is overwritten, in the entries and in the archive. */
  function AfterFolds(start: Stored, line: real, trace: seq<FoldRecord>, n: nat): Stored
    requires n <= |trace|
  {
    if n == 0 then start else FoldedOnce(AfterFolds(start, line, trace, n - 1), start.entries, line, trace[n - 1])
  }

  /** The fold takes its cluster's ids as they are live at that point, whatever earlier folds put under them. */
  ghost predicate FoldRecorded(entries: Entries, before: Entries, line: real, now: nat, fold: FoldRecord) {
    var ids := Cluster(before, line, fold.path);
    && ids <= entries.Keys
    && fold.node.id == MacroId(fold.path, now) && fold.node.path == fold.path
    && MacroImportance(fold.node.importance, entries, ids, line) && Lists(fold.micro, entries, ids)
  }

  ghost predicate TraceOk(start: Stored, line: real, now: nat, trace: seq<FoldRecord>) {
    forall i :: 0 <= i < |trace| ==>
      FoldRecorded(AfterFolds(start, line, trace, i).entries, start.entries, line, now, trace[i])
  }

  function PathsOf(trace: seq<FoldRecord>): seq<string> {
    seq(|trace|, i requires 0 <= i < |trace| => trace[i].path)
  }

  /** `paths` names every path of `all` exactly once, in any order. */
  ghost predicate Enumerates(paths: seq<string>, all: set<string>) {
    && (forall path :: path in all <==> path in paths)
    && forall i, j :: 0 <= i < j < |paths| ==> paths[i] != paths[j]
  }

  /** The folds so far: of exactly the large enough clusters whose paths are no longer in `todo`. */
  ghost predicate Traces(start: Stored, dir: Stored, config: RemConfig, now: nat, todo: set<string>,
                         trace: seq<FoldRecord>)
  {
    && TraceOk(start, config.noiseImportance, now, trace)
    && Enumerates(PathsOf(trace), LargeDone(start.entries, config, todo))
    && dir == AfterFolds(start, config.noiseImportance, trace, |trace|)
  }

  /** A whole cycle, on any directory: each large enough cluster folded once, in some order, and the residue pruned. */
  ghost predicate Performed(start: Stored, dir: Stored, config: RemConfig, now: nat, trace: seq<FoldRecord>) {
    var folded := AfterFolds(start, config.noiseImportance, trace, |trace|);
    && TraceOk(start, config.noiseImportance, now, trace)
    && Enumerates(PathsOf(trace), FoldedPaths(start.entries, config))
    && dir == Stored(Kept(folded.entries, config.noiseImportance / 2.0), folded.folds)
  }

  lemma {:induction false} SameFolds(start: Stored, line: real, trace: seq<FoldRecord>, longer: seq<FoldRecord>, n: nat)
    requires n <= |trace| <= |longer| && forall i :: 0 <= i < |trace| ==> trace[i] == longer[i]
    ensures AfterFolds(start, line, trace, n) == AfterFolds(start, line, longer, n)
  {
    hide FoldedOnce;
    if n == 0 {
    } else {
      SameFolds(start, line, trace, longer, n - 1);
    }
  }

  lemma TracesNothing(start: Stored, config: RemConfig, now: nat)
    ensures Traces(start, start, config, now, NoisePaths(start.entries, config.noiseImportance), [])
  {
  }

  lemma TraceGrows(start: Stored, line: real, now: nat, trace: seq<FoldRecord>, fold: FoldRecord)
    requires TraceOk(start, line, now, trace)
    requires FoldRecorded(AfterFolds(start, line, trace, |trace|).entries, start.entries, line, now, fold)
    ensures TraceOk(start, line, now, trace + [fold])
    ensures AfterFolds(start, line, trace + [fold], |trace| + 1)
         == FoldedOnce(AfterFolds(start, line, trace, |trace|), start.entries, line, fold)
  {
    hide FoldRecorded, FoldedOnce;
    var longer := trace + [fold];
    forall i | 0 <= i < |longer|
      ensures FoldRecorded(AfterFolds(start, line, longer, i).entries, start.entries, line, now, longer[i])
    {
      SameFolds(start, line, trace, longer, i);
    }
    SameFolds(start, line, trace, longer, |trace|);
  }

  lemma OneMorePath(trace: seq<FoldRecord>, fold: FoldRecord, done: set<string>)
    requires Enumerates(PathsOf(trace), done) && fold.path !in done
    ensures Enumerates(PathsOf(trace + [fold]), done + {fold.path})
  {
    var paths, longer := PathsOf(trace), PathsOf(trace + [fold]);
    assert longer == paths + [fold.path];
    hide PathsOf;
    forall i | 0 <= i < |paths| ensures longer[i] != fold.path {
      assert paths[i] in paths;
    }
  }

  lemma TracesOneMore(start: Stored, dir: Stored, config: RemConfig, now: nat, todo: set<string>,
                      trace: seq<FoldRecord>, fold: FoldRecord)
    requires Traces(start, dir, config, now, todo, trace)
    requires FoldRecorded(dir.entries, start.entries, config.noiseImportance, now, fold)
    requires fold.path in todo && todo <= NoisePaths(start.entries, config.noiseImportance)
    requires Card(Cluster(start.entries, config.noiseImportance, fold.path)) >= config.minFoldCluster
    ensures Traces(start, FoldedOnce(dir, start.entries, config.noiseImportance, fold), config, now,
                   todo - {fold.path}, trace + [fold])
  {
    hide TraceOk, FoldRecorded, FoldedOnce, AfterFolds, Enumerates, PathsOf, LargeDone, NoisePaths, Cluster;
    TraceGrows(start, config.noiseImportance, now, trace, fold);
    LargeStep(start.entries, config, todo, fold.path);
    OneMorePath(trace, fold, LargeDone(start.entries, config, todo));
  }

  lemma TracesNoMore(start: Stored, dir: Stored, config: RemConfig, now: nat, todo: set<string>,
                     trace: seq<FoldRecord>, path: string)
    requires Traces(start, dir, config, now, todo, trace)
    requires Card(Cluster(start.entries, config.noiseImportance, path)) < config.minFoldCluster
    ensures Traces(start, dir, config, now, todo - {path}, trace)
  {
    hide TraceOk, Enumerates, AfterFolds;
    assert LargeDone(start.entries, config, todo - {path}) == LargeDone(start.entries, config, todo);
  }

  lemma TracedThenPruned(start: Stored, dir: Stored, config: RemConfig, now: nat, trace: seq<FoldRecord>)
    requires Traces(start, dir, config, now, {}, trace)
    ensures Performed(start, Stored(Kept(dir.entries, config.noiseImportance / 2.0), dir.folds), config, now, trace)
  {
    hide TraceOk, Enumerates, AfterFolds, Kept;
    assert LargeDone(start.entries, config, {}) == FoldedPaths(start.entries, config);
  }

  lemma IsRecorded(dir: Stored, before: Entries, line: real, now: nat, fold: FoldRecord)
    requires Cluster(before, line, fold.path) <= dir.entries.Keys
    requires fold.node.id == MacroId(fold.path, now) && fold.node.path == fold.path
    requires MacroImportance(fold.node.importance, dir.entries, Cluster(before, line, fold.path), line)
    requires Lists(fold.micro, dir.entries, Cluster(before, line, fold.path))
    ensures FoldRecorded(dir.entries, before, line, now, fold)
    ensures FoldedOnce(dir, before, line, fold)
         == Stored((dir.entries - Cluster(before, line, fold.path))[fold.node.id := fold.node],
                   dir.folds[fold.node.id := fold.micro])
  {
  }

  /** The paths of the first `n` folds. */
  ghost function FirstPaths(trace: seq<FoldRecord>, n: nat): set<string>
    requires n <= |trace|
  {
    set i | 0 <= i < n :: trace[i].path
  }

  lemma NextPath(trace: seq<FoldRecord>, n: nat, all: set<string>)
    requires 0 < n <= |trace| && Enumerates(PathsOf(trace), all)
    ensures trace[n - 1].path in all && trace[n - 1].path !in FirstPaths(trace, n - 1)
    ensures FirstPaths(trace, n) == FirstPaths(trace, n - 1) + {trace[n - 1].path} <= all
  {
    assert PathsOf(trace)[n - 1] in PathsOf(trace);
    forall i | 0 <= i < n ensures trace[i].path in all {
      assert PathsOf(trace)[i] in PathsOf(trace);
    }
    forall i | 0 <= i < n - 1 ensures trace[i].path != trace[n - 1].path {
      assert PathsOf(trace)[i] != PathsOf(trace)[n - 1];
    }
  }

  /** When no macro id is taken, folding one by one, in any order, is folding at once. */
  lemma {:induction false} FoldsTogether(start: Stored, config: RemConfig, now: nat, trace: seq<FoldRecord>, n: nat)
    requires KeyedById(start.entries) && FreshMacroIds(start.entries, start.folds, config, now) && n <= |trace|
    requires TraceOk(start, config.noiseImportance, now, trace)
    requires Enumerates(PathsOf(trace), FoldedPaths(start.entries, config))
    ensures
      var after := AfterFolds(start, config.noiseImportance, trace, n);
      Folding(start.entries, start.folds, after.entries, after.folds, config.noiseImportance, now, FirstPaths(trace, n))
  {
    hide KeyedById, FreshMacroIds, Enumerates, Folding, FoldedPaths, PathsOf, FoldRecorded, FoldedOnce;
    var line := config.noiseImportance;
    if n == 0 {
      FoldingNothing(start.entries, start.folds, line, now);
      assert FirstPaths(trace, 0) == {};
    } else {
      FoldsTogether(start, config, now, trace, n - 1);
      NextPath(trace, n, FoldedPaths(start.entries, config));
      hide FirstPaths;
      FoldsOneMore(start, AfterFolds(start, line, trace, n - 1), config, now, FirstPaths(trace, n - 1), trace[n - 1]);
    }
  }

  lemma FoldsOneMore(start: Stored, mid: Stored, config: RemConfig, now: nat, done: set<string>, fold: FoldRecord)
    requires KeyedById(start.entries) && FreshMacroIds(start.entries, start.folds, config, now)
    requires Folding(start.entries, start.folds, mid.entries, mid.folds, config.noiseImportance, now, done)
    requires fold.path !in done && done + {fold.path} <= FoldedPaths(start.entries, config)
    requires FoldRecorded(mid.entries, start.entries, config.noiseImportance, now, fold)
    ensures
      var after := FoldedOnce(mid, start.entries, config.noiseImportance, fold);
      Folding(start.entries, start.folds, after.entries, after.folds, config.noiseImportance, now, done + {fold.path})
  {
    hide KeyedById, FreshMacroIds, Folding, Cluster, MacroImportance, Lists, MacroId;
    var line := config.noiseImportance;
    MacrosAreNew(start.entries, start.folds, config, now, done + {fold.path});
    FoldedIsNoisy(start.entries, config, fold.path);
    FoldingReady(start.entries, start.folds, mid.entries, mid.folds, line, now, done, fold.path);
    FoldingStep(start.entries, start.folds, mid.entries, mid.folds, line, now, done, fold.path, fold.node, fold.micro);
  }

  lemma FoldedIsNoisy(entries: Entries, config: RemConfig, path: string)
    requires path in FoldedPaths(entries, config)
    ensures path in NoisePaths(entries, config.noiseImportance)
  {
  }

  lemma TracedIsFolding(start: Stored, dir: Stored, config: RemConfig, now: nat, trace: seq<FoldRecord>)
    requires KeyedById(start.entries) && FreshMacroIds(start.entries, start.folds, config, now)
    requires Traces(start, dir, config, now, {}, trace)
    ensures Folding(start.entries, start.folds, dir.entries, dir.folds, config.noiseImportance, now,
                    FoldedPaths(start.entries, config))
  {
    hide KeyedById, FreshMacroIds, Folding, TraceOk, AfterFolds, PathsOf, FoldedPaths;
    AllDone(start.entries, config);
    hide LargeDone;
    FoldsTogether(start, config, now, trace, |trace|);
    EveryPath(trace, FoldedPaths(start.entries, config));
  }

  lemma AllDone(entries: Entries, config: RemConfig)
    ensures LargeDone(entries, config, {}) == FoldedPaths(entries, config)
  {
  }

  lemma EveryPath(trace: seq<FoldRecord>, all: set<string>)
    requires Enumerates(PathsOf(trace), all)
    ensures FirstPaths(trace, |trace|) == all
  {
    forall path ensures path in FirstPaths(trace, |trace|) <==> path in all {
      if path in all {
        var i :| 0 <= i < |trace| && PathsOf(trace)[i] == path;
      }
      if path in FirstPaths(trace, |trace|) {
        var i :| 0 <= i < |trace| && trace[i].path == path;
        assert PathsOf(trace)[i] in PathsOf(trace);
      }
    }
  }

  /** What the trace tells of a whole cycle is, when no macro id is taken, the cycle with no order to it. */
  lemma PerformedIsCycle(start: Stored, dir: Stored, config: RemConfig, now: nat, trace: seq<FoldRecord>)
    requires KeyedById(start.entries) && FreshMacroIds(start.entries, start.folds, config, now)
    requires Performed(start, dir, config, now, trace)
    ensures RemCycle(start.entries, start.folds, dir.entries, dir.folds, config, now)
  {
    hide KeyedById, FreshMacroIds, Folding, TraceOk, AfterFolds, PathsOf, FoldedPaths, Kept, RemCycle;
    FoldsTogether(start, config, now, trace, |trace|);
    EveryPath(trace, FoldedPaths(start.entries, config));
    var folded := AfterFolds(start, config.noiseImportance, trace, |trace|);
    FoldThenPrune(start.entries, start.folds, folded.entries, folded.folds, config, now);
  }

  // ---- The engine ----

  datatype RemReport = RemReport(
    nodesBefore: nat,
    clustersFolded: nat,
    nodesFolded: nat,
    nodesPruned: nat,
    timestamp: nat)

  class DreamEngine {
    const remConfig: RemConfig
    var lastRem: LastRem

    constructor (config: RemConfig)
      ensures remConfig == config && lastRem == Never
    {
      remConfig, lastRem := config, Never;
    }

    /** Groups the noise entries by path. */
    method GroupNoise(entries: Entries) returns (clusters: map<string, set<string>>)
      ensures Groups(clusters, entries, remConfig.noiseImportance)
    {
      clusters := map[];
      assert Groups(map[], map[], remConfig.noiseImportance);
      var todo := entries.Keys;
      ghost var seen: Entries := map[];
      while todo != {}
        invariant todo <= entries.Keys && seen == entries - todo
        invariant Groups(clusters, seen, remConfig.noiseImportance)
        decreases |todo|
      {
        hide Groups;
        var id :| id in todo;
        var e := entries[id];
        assert entries - (todo - {id}) == seen[id := e];
        GroupStep(clusters, seen, id, e, remConfig.noiseImportance);
        if e.importance <= remConfig.noiseImportance {
          clusters := clusters[e.path := (if e.path in clusters then clusters[e.path] else {}) + {id}];
        }
        todo := todo - {id};
        seen := seen[id := e];
      }
      assert seen == entries;
    }

    /** Folds one cluster: its entries leave the directory for the archive, and a macro node takes their place. */
    method FoldCluster(dir: OduDirectory, path: string, ids: set<string>, now: nat, clock: nat)
      returns (node: OduEntry, micro: seq<OduEntry>)
      requires ids != {} && ids <= dir.entries.Keys && KeyedById(dir.entries)
      modifies dir
      ensures node.id == MacroId(path, now) && node.path == path
      ensures MacroImportance(node.importance, old(dir.entries), ids, remConfig.noiseImportance)
      ensures Lists(micro, old(dir.entries), ids)
      ensures dir.entries == (old(dir.entries) - ids)[node.id := node]
      ensures dir.archivedFolds == old(dir.archivedFolds)[node.id := micro]
    {
      micro := [];
      var maxImportance, gone := 0.0, {};
      ghost var before := dir.entries;
      while ids - gone != {}
        invariant gone <= ids
        invariant dir.entries == before - gone && dir.archivedFolds == old(dir.archivedFolds)
        invariant Lists(micro, before, gone)
        invariant LargestOf(maxImportance, before, gone)
        decreases ids - gone
      {
        hide Lists, LargestOf;
        var id :| id in ids - gone;
        MinusOneMore(before, gone, id);
        var removed := dir.Remove(id);
        ListsGrows(micro, before, gone, id);
        LargestGrows(maxImportance, before, gone, id);
        micro := micro + [removed.value];
        maxImportance := RealMax(maxImportance, removed.value.importance);
        gone := gone + {id};
      }
      assert gone == ids;
      node := OduEntry(MacroId(path, now), "", RealMax(maxImportance + 0.1, remConfig.noiseImportance), clock, clock,
          path);
      dir.Insert(node);
      ListsSomething(micro, before, ids);
      LargestIsMacro(maxImportance, before, ids, remConfig.noiseImportance);
      dir.ArchiveFold(node.id, micro);
    }

    /**
     The Sabbath cycle: nothing unless due; otherwise fold every large enough noise cluster and prune the residue.
     The trace tells the folds one by one. When no macro id to be used is taken, their order does not matter.
     */
    method TryRemCycle(dir: OduDirectory, now: nat, clock: nat)
      returns (report: Option<RemReport>, ghost trace: seq<FoldRecord>)
      requires KeyedById(dir.entries)
      modifies this, dir
      ensures KeyedById(dir.entries)
      ensures report.Some? <==> ShouldRem(old(lastRem), now, remConfig.overdueAfter)
      ensures lastRem == if report.Some? then At(now) else old(lastRem)
      ensures report.None? ==> dir.entries == old(dir.entries) && dir.archivedFolds == old(dir.archivedFolds)
      ensures report.Some? ==>
        && Performed(Stored(old(dir.entries), old(dir.archivedFolds)), Stored(dir.entries, dir.archivedFolds),
                     remConfig, now, trace)
        && report.value == Report(old(dir.entries), remConfig, now).(nodesPruned := report.value.nodesPruned)
        && report.value.nodesPruned == NodesPruned(Stored(old(dir.entries), old(dir.archivedFolds)), remConfig, trace)
      ensures report.Some? && FreshMacroIds(old(dir.entries), old(dir.archivedFolds), remConfig, now) ==>
        && RemCycle(old(dir.entries), old(dir.archivedFolds), dir.entries, dir.archivedFolds, remConfig, now)
        && report.value == Report(old(dir.entries), remConfig, now)
    {
      hide *;
      if !ShouldRem(lastRem, now, remConfig.overdueAfter) {
        return None, [];
      }
      var before := dir.entries;
      var clusters := GroupNoise(before);
      var clustersFolded, nodesFolded;
      clustersFolded, nodesFolded, trace := FoldClusters(dir, clusters, now, clock);
      ghost var start, mid := Stored(before, old(dir.archivedFolds)), dir.entries;
      TracedThenPruned(start, Stored(mid, dir.archivedFolds), remConfig, now, trace);
      PrunedAfterFolds(start, Stored(mid, dir.archivedFolds), remConfig, now, trace);
      var nodesPruned := dir.PruneStale(remConfig.noiseImportance / 2.0);
      KeptKeyed(mid, remConfig.noiseImportance / 2.0);
      ReportIs(before, remConfig, now);
      if FreshMacroIds(before, old(dir.archivedFolds), remConfig, now) {
        PrunedCount(before, old(dir.archivedFolds), mid, dir.archivedFolds, remConfig, now);
        FoldThenPrune(before, old(dir.archivedFolds), mid, dir.archivedFolds, remConfig, now);
      }
      lastRem := At(now);
      report := Some(RemReport(Size(before), clustersFolded, nodesFolded, nodesPruned, now));
    }

    /** Folds one more large enough cluster. */
    method FoldNext(dir: OduDirectory, path: string, ids: set<string>, now: nat, clock: nat,
                    ghost before: Entries, ghost todo: set<string>)
      returns (ghost fold: FoldRecord)
      requires KeyedById(before) && KeyedById(dir.entries)
      requires path in todo && todo <= NoisePaths(before, remConfig.noiseImportance)
      requires ids == Cluster(before, remConfig.noiseImportance, path) && Card(ids) >= remConfig.minFoldCluster
      requires FoldedIds(before, remConfig.noiseImportance, todo) <= dir.entries.Keys
      modifies dir
      ensures KeyedById(dir.entries)
      ensures fold.path == path && FoldRecorded(old(dir.entries), before, remConfig.noiseImportance, now, fold)
      ensures Stored(dir.entries, dir.archivedFolds)
           == FoldedOnce(Stored(old(dir.entries), old(dir.archivedFolds)), before, remConfig.noiseImportance, fold)
      ensures FoldedIds(before, remConfig.noiseImportance, todo - {path}) <= dir.entries.Keys
    {
      hide *;
      ghost var mid, midFolds := dir.entries, dir.archivedFolds;
      NoiseCluster(before, remConfig.noiseImportance, todo, path);
      var node, micro := FoldCluster(dir, path, ids, now, clock);
      fold := FoldRecord(path, node, micro);
      IsRecorded(Stored(mid, midFolds), before, remConfig.noiseImportance, now, fold);
      KeyedAfterFold(mid, ids, node);
      LeftAfterFold(before, remConfig.noiseImportance, todo, path, mid, node);
    }

    /** Folds every large enough cluster, in some order. */
    method FoldClusters(dir: OduDirectory, clusters: map<string, set<string>>, now: nat, clock: nat)
      returns (clustersFolded: nat, nodesFolded: nat, ghost trace: seq<FoldRecord>)
      requires KeyedById(dir.entries)
      requires Groups(clusters, dir.entries, remConfig.noiseImportance)
      modifies dir
      ensures KeyedById(dir.entries)
      ensures Traces(Stored(old(dir.entries), old(dir.archivedFolds)), Stored(dir.entries, dir.archivedFolds),
                     remConfig, now, {}, trace)
      ensures FreshMacroIds(old(dir.entries), old(dir.archivedFolds), remConfig, now) ==>
        Folding(old(dir.entries), old(dir.archivedFolds), dir.entries, dir.archivedFolds,
                remConfig.noiseImportance, now, FoldedPaths(old(dir.entries), remConfig))
      ensures clustersFolded == Card(FoldedPaths(old(dir.entries), remConfig))
      ensures nodesFolded
          == Card(FoldedIds(old(dir.entries), remConfig.noiseImportance, FoldedPaths(old(dir.entries), remConfig)))
    {
      hide *;
      ghost var before, folds := dir.entries, dir.archivedFolds;
      GroupsEveryPath(clusters, before, remConfig.noiseImportance);
      var todo := clusters.Keys;
      clustersFolded, nodesFolded, trace := 0, 0, [];
      TracesNothing(Stored(before, folds), remConfig, now);
      NothingDone(before, remConfig);
      FoldedAreKeys(before, remConfig.noiseImportance, todo);
      while todo != {}
        invariant todo <= clusters.Keys && KeyedById(dir.entries)
        invariant FoldedIds(before, remConfig.noiseImportance, todo) <= dir.entries.Keys
        invariant Traces(Stored(before, folds), Stored(dir.entries, dir.archivedFolds), remConfig, now, todo, trace)
        invariant clustersFolded == ClustersDone(before, remConfig, todo)
            && nodesFolded == NodesDone(before, remConfig, todo)
        decreases todo
      {
        var path :| path in todo;
        var ids := clusters[path];
        ProgressCounts(before, remConfig, todo, path);
        if Card(ids) >= remConfig.minFoldCluster {
          ghost var mid := Stored(dir.entries, dir.archivedFolds);
          ghost var fold := FoldNext(dir, path, ids, now, clock, before, todo);
          TracesOneMore(Stored(before, folds), mid, remConfig, now, todo, trace, fold);
          trace := trace + [fold];
          clustersFolded, nodesFolded := clustersFolded + 1, nodesFolded + Card(ids);
        } else {
          FewerLeft(before, remConfig.noiseImportance, todo, path);
          TracesNoMore(Stored(before, folds), Stored(dir.entries, dir.archivedFolds), remConfig, now, todo, trace,
              path);
        }
        todo := todo - {path};
      }
      AllCounted(before, remConfig);
      if FreshMacroIds(before, folds, remConfig, now) {
        TracedIsFolding(Stored(before, folds), Stored(dir.entries, dir.archivedFolds), remConfig, now, trace);
      }
    }
  }

  /** How many entries the residual prune of a cycle takes. */
  ghost function NodesPruned(start: Stored, config: RemConfig, trace: seq<FoldRecord>): int {
    var folded := AfterFolds(start, config.noiseImportance, trace, |trace|).entries;
    Size(folded) - Size(Kept(folded, config.noiseImportance / 2.0))
  }

  lemma PrunedAfterFolds(start: Stored, dir: Stored, config: RemConfig, now: nat, trace: seq<FoldRecord>)
    requires Traces(start, dir, config, now, {}, trace)
    ensures NodesPruned(start, config, trace)
        == Size(dir.entries) - Size(Kept(dir.entries, config.noiseImportance / 2.0))
  {
    hide TraceOk, Enumerates, AfterFolds, Kept, Size;
  }

  // ---- The directory during the folds, whether or not the macro ids are free ----

  lemma KeptKeyed(entries: Entries, minImportance: real)
    requires KeyedById(entries)
    ensures KeyedById(Kept(entries, minImportance))
  {
  }

  lemma KeyedAfterFold(entries: Entries, ids: set<string>, node: OduEntry)
    requires KeyedById(entries)
    ensures KeyedById((entries - ids)[node.id := node])
  {
  }

  lemma NoiseCluster(before: Entries, line: real, todo: set<string>, path: string)
    requires path in todo && path in NoisePaths(before, line)
    ensures Cluster(before, line, path) != {} && Cluster(before, line, path) <= FoldedIds(before, line, todo)
  {
    var id :| id in Noise(before, line) && before[id].path == path;
    assert id in Cluster(before, line, path);
  }

  lemma LeftAfterFold(before: Entries, line: real, todo: set<string>, path: string, entries: Entries, node: OduEntry)
    requires path in todo && FoldedIds(before, line, todo) <= entries.Keys
    ensures FoldedIds(before, line, todo - {path}) <= (entries - Cluster(before, line, path))[node.id := node].Keys
  {
    assert FoldedIds(before, line, todo - {path}) !! Cluster(before, line, path);
    FewerLeft(before, line, todo, path);
    hide FoldedIds, Cluster;
  }

  lemma FewerLeft(before: Entries, line: real, todo: set<string>, path: string)
    ensures FoldedIds(before, line, todo - {path}) <= FoldedIds(before, line, todo)
  {
  }

  lemma FoldedAreKeys(before: Entries, line: real, todo: set<string>)
    ensures FoldedIds(before, line, todo) <= before.Keys
  {
  }

  ghost predicate Groups(clusters: map<string, set<string>>, entries: Entries, line: real) {
    && clusters.Keys == NoisePaths(entries, line)
    && forall path :: path in clusters ==> clusters[path] == Cluster(entries, line, path)
  }

  lemma GroupsEveryPath(clusters: map<string, set<string>>, entries: Entries, line: real)
    requires Groups(clusters, entries, line)
    ensures clusters.Keys == NoisePaths(entries, line)
    ensures forall path :: path in clusters ==> clusters[path] == Cluster(entries, line, path)
  {
  }

  ghost predicate LargestOf(m: real, entries: Entries, ids: set<string>)
    requires ids <= entries.Keys
  {
    && m >= 0.0 && (forall id :: id in ids ==> m >= entries[id].importance)
    && (m == 0.0 || exists id :: id in ids && m == entries[id].importance)
  }

  ghost predicate MacroImportance(m: real, entries: Entries, ids: set<string>, line: real)
    requires ids <= entries.Keys
  {
    && m >= line && m >= 0.1 && (forall id :: id in ids ==> m >= entries[id].importance + 0.1)
    && (m == line || m == 0.1 || exists id :: id in ids && m == entries[id].importance + 0.1)
  }

  lemma GroupStep(clusters: map<string, set<string>>, seen: Entries, id: string, e: OduEntry, line: real)
    requires id !in seen && Groups(clusters, seen, line)
    ensures
      var grown := clusters[e.path := (if e.path in clusters then clusters[e.path] else {}) + {id}];
      Groups(if e.importance <= line then grown else clusters, seen[id := e], line)
  {
    var seen' := seen[id := e];
    forall path | path in NoisePaths(seen, line) ensures path in NoisePaths(seen', line) {
      var i :| i in Noise(seen, line) && seen[i].path == path;
      assert i in Noise(seen', line) && seen'[i].path == path;
    }
    if e.importance <= line {
      assert id in Noise(seen', line) && seen'[id].path == e.path;
    }
    forall path | path in NoisePaths(seen', line) && !(e.importance <= line && path == e.path)
      ensures path in NoisePaths(seen, line)
    {
      var i :| i in Noise(seen', line) && seen'[i].path == path;
      assert i in Noise(seen, line);
    }
    forall path ensures Cluster(seen', line, path)
      == Cluster(seen, line, path) + (if e.importance <= line && e.path == path then {id} else {}) {}
    if e.path !in clusters {
      NoCluster(seen, line, e.path);
    }
  }

  lemma NoCluster(entries: Entries, line: real, path: string)
    requires path !in NoisePaths(entries, line)
    ensures Cluster(entries, line, path) == {}
  {
    assert forall i :: i in Cluster(entries, line, path) ==> i in Noise(entries, line);
  }

  lemma LargestGrows(m: real, entries: Entries, ids: set<string>, id: string)
    requires ids <= entries.Keys && LargestOf(m, entries, ids) && id in entries
    ensures LargestOf(RealMax(m, entries[id].importance), entries, ids + {id})
  {
    assert id in ids + {id};
  }

  lemma LargestIsMacro(m: real, entries: Entries, ids: set<string>, line: real)
    requires ids <= entries.Keys && LargestOf(m, entries, ids)
    ensures MacroImportance(RealMax(m + 0.1, line), entries, ids, line)
  {
  }

  lemma ListsSomething(micro: seq<OduEntry>, entries: Entries, ids: set<string>)
    requires Lists(micro, entries, ids) && ids != {}
    ensures micro != []
  {
    var id :| id in ids;
    assert entries[id] in micro;
  }

  lemma ListsGrows(micro: seq<OduEntry>, entries: Entries, ids: set<string>, id: string)
    requires Lists(micro, entries, ids) && id in entries && id !in ids && KeyedById(entries)
    ensures Lists(micro + [entries[id]], entries, ids + {id})
  {
  }

  // ---- The cycle's steps ----

  /** What a cycle reports, in terms of the directory it found. */
  ghost function Report(before: Entries, config: RemConfig, now: nat): RemReport {
    var paths := FoldedPaths(before, config);
    RemReport(Size(before), Card(paths), Card(FoldedIds(before, config.noiseImportance, paths)),
              Card(PrunedIds(before, config)), now)
  }

  /** The paths of large enough clusters that are no longer in `todo`. */
  function LargeDone(entries: Entries, config: RemConfig, todo: set<string>): set<string> {
    FoldedPaths(entries, config) - todo
  }

  ghost function ClustersDone(entries: Entries, config: RemConfig, todo: set<string>): nat {
    Card(LargeDone(entries, config, todo))
  }

  ghost function NodesDone(entries: Entries, config: RemConfig, todo: set<string>): nat {
    Card(FoldedIds(entries, config.noiseImportance, LargeDone(entries, config, todo)))
  }

  lemma LargeStep(entries: Entries, config: RemConfig, todo: set<string>, path: string)
    requires path in todo && todo <= NoisePaths(entries, config.noiseImportance)
    requires Card(Cluster(entries, config.noiseImportance, path)) >= config.minFoldCluster
    ensures path !in LargeDone(entries, config, todo)
    ensures LargeDone(entries, config, todo - {path}) == LargeDone(entries, config, todo) + {path}
    ensures LargeDone(entries, config, todo - {path}) <= FoldedPaths(entries, config)
  {
    assert path in FoldedPaths(entries, config);
  }

  lemma ProgressCounts(entries: Entries, config: RemConfig, todo: set<string>, path: string)
    requires path in todo && todo <= NoisePaths(entries, config.noiseImportance)
    ensures
      var size, todo' := Card(Cluster(entries, config.noiseImportance, path)), todo - {path};
      var large := size >= config.minFoldCluster;
      && ClustersDone(entries, config, todo') == ClustersDone(entries, config, todo) + (if large then 1 else 0)
      && NodesDone(entries, config, todo') == NodesDone(entries, config, todo) + (if large then size else 0)
  {
    if Card(Cluster(entries, config.noiseImportance, path)) >= config.minFoldCluster {
      LargeStep(entries, config, todo, path);
      FoldedIdsGrow(entries, config.noiseImportance, LargeDone(entries, config, todo), path);
    } else {
      assert LargeDone(entries, config, todo - {path}) == LargeDone(entries, config, todo);
    }
  }

  lemma NothingDone(before: Entries, config: RemConfig)
    ensures
      var todo := NoisePaths(before, config.noiseImportance);
      ClustersDone(before, config, todo) == 0 && NodesDone(before, config, todo) == 0
  {
    assert LargeDone(before, config, NoisePaths(before, config.noiseImportance)) == {};
    NothingFolded(before, config.noiseImportance);
  }

  lemma NothingFolded(before: Entries, line: real)
    ensures FoldedIds(before, line, {}) == {}
  {
  }

  lemma AllCounted(before: Entries, config: RemConfig)
    ensures ClustersDone(before, config, {}) == Card(FoldedPaths(before, config))
    ensures NodesDone(before, config, {})
        == Card(FoldedIds(before, config.noiseImportance, FoldedPaths(before, config)))
  {
    assert LargeDone(before, config, {}) == FoldedPaths(before, config);
  }

  lemma ReportIs(before: Entries, config: RemConfig, now: nat)
    ensures
      var paths := FoldedPaths(before, config);
      Report(before, config, now)
        == RemReport(Size(before), Card(paths), Card(FoldedIds(before, config.noiseImportance, paths)),
                     Card(PrunedIds(before, config)), now)
  {
  }

  lemma FoldThenPrune(before: Entries, folds: Folds, mid: Entries, folds': Folds, config: RemConfig, now: nat)
    requires Folding(before, folds, mid, folds', config.noiseImportance, now, FoldedPaths(before, config))
    requires FreshMacroIds(before, folds, config, now)
    ensures RemCycle(before, folds, Kept(mid, config.noiseImportance / 2.0), folds', config, now)
  {
    hide FoldedLive, FoldedMacros, FoldedArchive, CycleLive, Kept, FoldedPaths, PrunedIds, FoldedIds, MacroIds,
        FreshMacroIds;
    CycleKeys(before, folds, mid, folds', config, now);
    CycleLiveAfter(before, mid, config, now);
    MacrosLast(before, mid, config, now);
  }

  lemma CycleLiveAfter(before: Entries, mid: Entries, config: RemConfig, now: nat)
    requires FoldedLive(before, mid, config.noiseImportance, now, FoldedPaths(before, config))
    requires
      var paths, line := FoldedPaths(before, config), config.noiseImportance;
      Kept(mid, line / 2.0).Keys
      == (before.Keys - FoldedIds(before, line, paths) - PrunedIds(before, config)) + MacroIds(paths, now)
    ensures CycleLive(before, Kept(mid, config.noiseImportance / 2.0), config, now)
  {
    hide FoldedPaths, FoldedIds, MacroIds, PrunedIds;
  }

  lemma MacrosLast(before: Entries, mid: Entries, config: RemConfig, now: nat)
    requires FoldedMacros(before, mid, config.noiseImportance, now, FoldedPaths(before, config))
    ensures FoldedMacros(before, Kept(mid, config.noiseImportance / 2.0), config.noiseImportance, now,
        FoldedPaths(before, config))
  {
    forall path | path in FoldedPaths(before, config)
      ensures mid[MacroId(path, now)].importance >= config.noiseImportance / 2.0
    {
      MacroSurvives(mid[MacroId(path, now)], path, now, before, config.noiseImportance);
    }
    hide IsMacro, FoldedPaths, MacroId;
  }

  lemma FoldingReady(before: Entries, folds: Folds, mid: Entries, midFolds: Folds,
                     line: real, now: nat, done: set<string>, path: string)
    requires Folding(before, folds, mid, midFolds, line, now, done)
    requires KeyedById(before) && path in NoisePaths(before, line) && path !in done
    ensures KeyedById(mid)
    ensures Cluster(before, line, path) != {} && Cluster(before, line, path) <= mid.Keys
    ensures forall id :: id in Cluster(before, line, path) ==> mid[id] == before[id]
  {
    var id :| id in Noise(before, line) && before[id].path == path;
    assert id in Cluster(before, line, path);
  }

  lemma FoldedIdsGrow(entries: Entries, line: real, done: set<string>, path: string)
    requires path !in done
    ensures FoldedIds(entries, line, done + {path}) == FoldedIds(entries, line, done) + Cluster(entries, line, path)
    ensures Card(FoldedIds(entries, line, done + {path}))
        == Card(FoldedIds(entries, line, done)) + Card(Cluster(entries, line, path))
    ensures Card(done + {path}) == Card(done) + 1
  {
    assert FoldedIds(entries, line, done) !! Cluster(entries, line, path);
  }

  lemma MacroIdsGrow(done: set<string>, path: string, now: nat)
    ensures MacroIds(done + {path}, now) == MacroIds(done, now) + {MacroId(path, now)}
    ensures path !in done ==> MacroId(path, now) !in MacroIds(done, now)
  {
    if path !in done && MacroId(path, now) in MacroIds(done, now) {
      var other :| other in done && MacroId(other, now) == MacroId(path, now);
      MacroIdIsInjective(other, now, path, now);
    }
  }

  lemma SameLists(micro: seq<OduEntry>, mid: Entries, before: Entries, ids: set<string>)
    requires Lists(micro, mid, ids) && ids <= before.Keys
    requires forall id :: id in ids ==> id in mid && mid[id] == before[id]
    ensures Lists(micro, before, ids)
  {
  }

  lemma FoldingNothing(before: Entries, folds: Folds, line: real, now: nat)
    ensures Folding(before, folds, before, folds, line, now, {}) && Card(FoldedIds(before, line, {})) == 0
        && Card({}) == 0
  {
    assert FoldedIds(before, line, {}) == {};
  }

  lemma FoldingStep(before: Entries, folds: Folds, mid: Entries, midFolds: Folds,
                    line: real, now: nat, done: set<string>, path: string, node: OduEntry, micro: seq<OduEntry>)
    requires Folding(before, folds, mid, midFolds, line, now, done)
    requires MacroIds(done + {path}, now) !! before.Keys && MacroIds(done + {path}, now) !! folds.Keys
    requires path !in done && node.id == MacroId(path, now) && node.path == path
    requires Cluster(before, line, path) <= mid.Keys
    requires forall id :: id in Cluster(before, line, path) ==> mid[id] == before[id]
    requires MacroImportance(node.importance, mid, Cluster(before, line, path), line)
    requires Lists(micro, mid, Cluster(before, line, path))
    ensures Folding(before, folds, (mid - Cluster(before, line, path))[node.id := node], midFolds[node.id := micro],
                    line, now, done + {path})
  {
    var ids := Cluster(before, line, path);
    ClusterKeys(before, line, path);
    FoldedIdsGrow(before, line, done, path);
    MacroIdsGrow(done, path, now);
    SameLists(micro, mid, before, ids);
    MacroNode(node, path, now, before, mid, line);
    hide FoldedLive, FoldedMacros, FoldedArchive, MacroId, Lists, IsMacro, Cluster, FoldedIds,
         MacroImportance, MacroIds;
    LiveStep(before, mid, line, now, done, path, node);
    MacroStep(before, mid, line, now, done, path, node);
    ArchiveStep(before, folds, midFolds, line, now, done, path, micro);
  }

  lemma MacroStep(before: Entries, mid: Entries, line: real, now: nat, done: set<string>, path: string, node: OduEntry)
    requires FoldedMacros(before, mid, line, now, done) && MacroIds(done + {path}, now) !! before.Keys
    requires path !in done && node.id == MacroId(path, now) && IsMacro(node, path, now, before, line)
    ensures FoldedMacros(before, (mid - Cluster(before, line, path))[node.id := node], line, now, done + {path})
  {
    hide IsMacro;
    ClusterKeys(before, line, path);
    forall p | p in done ensures MacroId(p, now) !in Cluster(before, line, path) && MacroId(p, now) != node.id {
      assert MacroId(p, now) in MacroIds(done + {path}, now);
      if MacroId(p, now) == MacroId(path, now) { MacroIdIsInjective(p, now, path, now); }
    }
    hide Cluster, MacroId, MacroIds;
  }

  lemma ArchiveStep(before: Entries, folds: Folds, midFolds: Folds, line: real, now: nat, done: set<string>,
                    path: string, micro: seq<OduEntry>)
    requires FoldedArchive(before, folds, midFolds, line, now, done) && MacroIds(done + {path}, now) !! folds.Keys
    requires MacroIds(done + {path}, now) == MacroIds(done, now) + {MacroId(path, now)}
    requires path !in done && Lists(micro, before, Cluster(before, line, path))
    ensures FoldedArchive(before, folds, midFolds[MacroId(path, now) := micro], line, now, done + {path})
  {
    hide Lists, Cluster;
    forall p | p in done ensures MacroId(p, now) != MacroId(path, now) {
      if MacroId(p, now) == MacroId(path, now) { MacroIdIsInjective(p, now, path, now); }
    }
    hide MacroId, MacroIds;
  }

  lemma ClusterKeys(entries: Entries, line: real, path: string)
    ensures Cluster(entries, line, path) <= entries.Keys
  {
  }

  lemma MacroNode(node: OduEntry, path: string, now: nat, before: Entries, mid: Entries, line: real)
    requires node.id == MacroId(path, now) && node.path == path
    requires Cluster(before, line, path) <= mid.Keys
    requires forall id :: id in Cluster(before, line, path) ==> mid[id] == before[id]
    requires MacroImportance(node.importance, mid, Cluster(before, line, path), line)
    ensures IsMacro(node, path, now, before, line)
  {
    hide MacroId;
  }

  lemma MacrosAreNew(before: Entries, folds: Folds, config: RemConfig, now: nat, paths: set<string>)
    requires FreshMacroIds(before, folds, config, now) && paths <= FoldedPaths(before, config)
    ensures MacroIds(paths, now) !! before.Keys && MacroIds(paths, now) !! folds.Keys
  {
    hide MacroId, FoldedPaths;
    assert MacroIds(paths, now) <= MacroIds(FoldedPaths(before, config), now);
  }

  lemma LiveStep(before: Entries, mid: Entries, line: real, now: nat, done: set<string>, path: string, node: OduEntry)
    requires FoldedLive(before, mid, line, now, done) && node.id == MacroId(path, now)
    requires MacroIds(done, now) !! before.Keys && node.id !in before
    requires MacroIds(done + {path}, now) == MacroIds(done, now) + {node.id}
    requires FoldedIds(before, line, done + {path}) == FoldedIds(before, line, done) + Cluster(before, line, path)
    ensures FoldedLive(before, (mid - Cluster(before, line, path))[node.id := node], line, now, done + {path})
  {
    hide MacroId, FoldedIds, MacroIds;
    ClusterKeys(before, line, path);
    hide Cluster;
  }

  lemma MacroSurvives(node: OduEntry, path: string, now: nat, entries: Entries, line: real)
    requires IsMacro(node, path, now, entries, line)
    ensures node.importance >= line / 2.0
  {
  }

  /** The keys left after a cycle: macro nodes always outlive the residual prune, whatever the noise line. */
  lemma CycleKeys(before: Entries, folds: Folds, mid: Entries, folds': Folds, config: RemConfig, now: nat)
    requires Folding(before, folds, mid, folds', config.noiseImportance, now, FoldedPaths(before, config))
    requires FreshMacroIds(before, folds, config, now)
    ensures
      var paths, line := FoldedPaths(before, config), config.noiseImportance;
      && FoldedIds(before, line, paths) !! PrunedIds(before, config)
      && before.Keys !! MacroIds(paths, now)
      && Kept(mid, line / 2.0).Keys
         == (before.Keys - FoldedIds(before, line, paths) - PrunedIds(before, config)) + MacroIds(paths, now)
  {
    hide MacroId;
    var paths, line := FoldedPaths(before, config), config.noiseImportance;
    forall id | id in MacroIds(paths, now) ensures id in Kept(mid, line / 2.0) && id !in before {
      var path :| path in paths && MacroId(path, now) == id;
      MacroSurvives(mid[id], path, now, before, line);
    }
  }

  lemma {:induction false} MacroIdsSize(paths: set<string>, now: nat)
    ensures |MacroIds(paths, now)| == |paths|
  {
    if paths != {} {
      var path :| path in paths;
      MacroIdsSize(paths - {path}, now);
      MacroIdsGrow(paths - {path}, path, now);
      assert (paths - {path}) + {path} == paths;
    }
  }

  lemma PrunedCount(before: Entries, folds: Folds, mid: Entries, folds': Folds, config: RemConfig, now: nat)
    requires Folding(before, folds, mid, folds', config.noiseImportance, now, FoldedPaths(before, config))
    requires FreshMacroIds(before, folds, config, now)
    ensures Size(mid) - Size(Kept(mid, config.noiseImportance / 2.0)) == Card(PrunedIds(before, config))
  {
    hide Size;
    var paths, line := FoldedPaths(before, config), config.noiseImportance;
    CycleKeys(before, folds, mid, folds', config, now);
    PrunedAreLive(before, config);
    assert mid.Keys == (before.Keys - FoldedIds(before, line, paths)) + MacroIds(paths, now) by {
      hide FoldedMacros, FoldedArchive, MacroIds, PrunedIds, FoldedIds, FoldedPaths, Kept, FreshMacroIds;
    }
    hide *;
    KeyCount(before.Keys, FoldedIds(before, line, paths), PrunedIds(before, config), MacroIds(paths, now),
             mid, Kept(mid, line / 2.0));
  }

  lemma PrunedAreLive(before: Entries, config: RemConfig)
    ensures PrunedIds(before, config) <= before.Keys
  {
  }

  lemma KeyCount(live: set<string>, gone: set<string>, pruned: set<string>, macros: set<string>,
                 mid: Entries, after: Entries)
    requires mid.Keys == (live - gone) + macros && after.Keys == (live - gone - pruned) + macros
    requires gone !! pruned && pruned <= live && live !! macros
    ensures Size(mid) - Size(after) == Card(pruned)
  {
    assert mid.Keys == after.Keys + pruned && after.Keys !! pruned;
  }
}
