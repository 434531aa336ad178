/**
 What a REM cycle guarantees about the memory it compresses (omokoda-core/src/dream.rs): every prior
 entry is accounted for, the report adds up, and unfolding the new macro nodes brings the memory back.
 */
module RemFoldProperties {
  import opened RemFold

  // ---- Every entry is accounted for ----

  ghost predicate StaysLive(id: string, before: Entries, after: Entries)
    requires id in before
  {
    id in after && after[id] == before[id]
  }

  ghost predicate FoldedAway(id: string, before: Entries, folds: Folds, folds': Folds, now: nat)
    requires id in before
  {
    var macroId := MacroId(before[id].path, now);
    macroId in folds' && macroId !in folds && before[id] in folds'[macroId]
  }

  /** No fold made by this cycle holds the entry. */
  ghost predicate NotFolded(id: string, before: Entries, folds: Folds, folds': Folds)
    requires id in before
  {
    forall macroId :: macroId in folds' && macroId !in folds ==> before[id] !in folds'[macroId]
  }

  /**
   Each prior entry is exactly one of: live and unchanged, archived unchanged, or pruned well below the noise
   line.
   */
  lemma EveryEntryAccounted(before: Entries, folds: Folds, after: Entries, folds': Folds,
                            config: RemConfig, now: nat, id: string)
    requires KeyedById(before) && FreshMacroIds(before, folds, config, now)
    requires RemCycle(before, folds, after, folds', config, now) && id in before
    ensures
      || (StaysLive(id, before, after) && NotFolded(id, before, folds, folds'))
      || (id !in after && FoldedAway(id, before, folds, folds', now) && before[id].importance <= config.noiseImportance)
      || (id !in after && NotFolded(id, before, folds, folds') && before[id].importance < config.noiseImportance / 2.0)
    ensures FoldedAway(id, before, folds, folds', now) ==> !NotFolded(id, before, folds, folds')
  {
    var paths, line := FoldedPaths(before, config), config.noiseImportance;
    MacrosAreNew(before, folds, config, now, paths);
    WhereItWent(before, folds, after, folds', config, now, id);
  }

  lemma WhereItWent(before: Entries, folds: Folds, after: Entries, folds': Folds,
                    config: RemConfig, now: nat, id: string)
    requires KeyedById(before) && RemCycle(before, folds, after, folds', config, now) && id in before
    requires
      var macros := MacroIds(FoldedPaths(before, config), now);
      macros !! before.Keys && macros !! folds.Keys
    ensures
      var gone := FoldedIds(before, config.noiseImportance, FoldedPaths(before, config));
      if id in gone then
        id !in after && FoldedAway(id, before, folds, folds', now) && before[id].importance <= config.noiseImportance
      else
        && NotFolded(id, before, folds, folds')
        && if id in PrunedIds(before, config)
           then id !in after && before[id].importance < config.noiseImportance / 2.0
           else StaysLive(id, before, after)
  {
    var paths, line := FoldedPaths(before, config), config.noiseImportance;
    var gone := FoldedIds(before, line, paths);
    assert id in after ==> id !in MacroIds(paths, now);
    if id in gone {
      ArchivedWithItsPath(before, folds, folds', config, now, id);
    } else {
      forall macroId | macroId in folds' && macroId !in folds ensures before[id] !in folds'[macroId] {
        NewFoldHoldsACluster(before, folds, folds', config, now, macroId, id);
      }
    }
  }

  lemma ArchivedWithItsPath(before: Entries, folds: Folds, folds': Folds, config: RemConfig, now: nat, id: string)
    requires FoldedArchive(before, folds, folds', config.noiseImportance, now, FoldedPaths(before, config))
    requires MacroIds(FoldedPaths(before, config), now) !! folds.Keys
    requires id in before && id in FoldedIds(before, config.noiseImportance, FoldedPaths(before, config))
    ensures FoldedAway(id, before, folds, folds', now)
  {
    var path := before[id].path;
    assert id in Cluster(before, config.noiseImportance, path);
    hide MacroId, FoldedPaths;
    assert MacroId(path, now) in MacroIds(FoldedPaths(before, config), now);
  }

  lemma NewFoldHoldsACluster(before: Entries, folds: Folds, folds': Folds, config: RemConfig, now: nat,
                             macroId: string, id: string)
    requires FoldedArchive(before, folds, folds', config.noiseImportance, now, FoldedPaths(before, config))
    requires macroId in folds' && macroId !in folds && id in before && before[id].id == id
    requires id !in FoldedIds(before, config.noiseImportance, FoldedPaths(before, config))
    ensures before[id] !in folds'[macroId]
  {
    hide MacroId, FoldedPaths;
    var path :| path in FoldedPaths(before, config) && MacroId(path, now) == macroId;
    assert id !in Cluster(before, config.noiseImportance, path);
  }

  // ---- The report adds up ----

  /** Live entries after the cycle = before - folded + one macro node per cluster - pruned. */
  lemma ReportBalances(before: Entries, folds: Folds, after: Entries, folds': Folds, config: RemConfig, now: nat)
    requires FreshMacroIds(before, folds, config, now) && RemCycle(before, folds, after, folds', config, now)
    ensures
      var report := Report(before, config, now);
      |after| == report.nodesBefore - report.nodesFolded + report.clustersFolded - report.nodesPruned
  {
    var paths, line := FoldedPaths(before, config), config.noiseImportance;
    MacrosAreNew(before, folds, config, now, paths);
    MacroIdsSize(paths, now);
    FoldedAreLive(before, config);
    CycleLiveKeys(before, after, config, now);
    BalanceKeys(before.Keys, after.Keys, FoldedIds(before, line, paths), PrunedIds(before, config),
        MacroIds(paths, now));
  }

  lemma CycleLiveKeys(before: Entries, after: Entries, config: RemConfig, now: nat)
    requires CycleLive(before, after, config, now)
    ensures
      var paths := FoldedPaths(before, config);
      var gone := FoldedIds(before, config.noiseImportance, paths) + PrunedIds(before, config);
      after.Keys == (before.Keys - gone) + MacroIds(paths, now)
  {
    hide FoldedPaths, FoldedIds, PrunedIds, MacroIds;
  }

  lemma FoldedAreLive(before: Entries, config: RemConfig)
    ensures
      var folded := FoldedIds(before, config.noiseImportance, FoldedPaths(before, config));
      folded <= before.Keys && PrunedIds(before, config) <= before.Keys && folded !! PrunedIds(before, config)
  {
    hide FoldedPaths;
  }

  lemma BalanceKeys(before: set<string>, after: set<string>, folded: set<string>, pruned: set<string>,
                    macros: set<string>)
    requires after == (before - (folded + pruned)) + macros
    requires folded <= before && pruned <= before && folded !! pruned && macros !! before
    ensures |after| == |before| - |folded| + |macros| - |pruned|
  {
    var kept := before - (folded + pruned);
    assert before == kept + (folded + pruned) && kept !! folded + pruned;
    assert |folded + pruned| == |folded| + |pruned|;
    assert |after| == |kept| + |macros|;
  }

  // ---- Unfolding restores the memory ----

  function UnfoldedPaths(dir: Stored, paths: seq<string>, n: nat, now: nat, clock: nat): Stored
    requires n <= |paths|
  {
    if n == 0 then dir else Unfolded(UnfoldedPaths(dir, paths, n - 1, now, clock), MacroId(paths[n - 1], now), clock)
  }

  /** The entry as unfolding leaves it: touched if it had been folded, otherwise as it was. */
  function Returned(before: Entries, config: RemConfig, clock: nat, id: string): OduEntry
    requires id in before
  {
    if id in FoldedIds(before, config.noiseImportance, FoldedPaths(before, config))
    then before[id].(lastAccessed := clock)
    else before[id]
  }

  /** What is missing from the live entries while the folds of `left` are still archived. */
  function Missing(before: Entries, config: RemConfig, left: set<string>): set<string> {
    FoldedIds(before, config.noiseImportance, left) + PrunedIds(before, config)
  }

  ghost predicate ReturnedAll(before: Entries, entries: Entries, config: RemConfig, clock: nat, missing: set<string>) {
    forall id :: id in before && id !in missing ==> id in entries && entries[id] == Returned(before, config, clock, id)
  }

  ghost predicate ListedBy(micro: seq<OduEntry>, n: nat, id: string)
    requires n <= |micro|
  {
    exists i :: 0 <= i < n && micro[i].id == id
  }

  /** Where an id is after the first `n` entries of a fold have been restored. */
  lemma {:induction false} RestoredFrom(entries: Entries, micro: seq<OduEntry>, n: nat, clock: nat, id: string)
    returns (i: nat)
    requires n <= |micro|
    ensures
      var restored := Restored(entries, micro, n, clock);
      if ListedBy(micro, n, id) then
        i < n && micro[i].id == id && id in restored && restored[id] == micro[i].(lastAccessed := clock)
      else (id in restored <==> id in entries) && (id in entries ==> restored[id] == entries[id])
  {
    i := 0;
    if n == 0 {
    } else {
      i := RestoredFrom(entries, micro, n - 1, clock, id);
      assert ListedBy(micro, n, id) <==> micro[n - 1].id == id || ListedBy(micro, n - 1, id);
      if micro[n - 1].id == id { i := n - 1; }
    }
  }

  lemma RestoredAt(entries: Entries, micro: seq<OduEntry>, before: Entries, ids: set<string>, clock: nat, id: string)
    requires Lists(micro, before, ids) && KeyedById(before)
    ensures
      var restored := Restored(entries, micro, |micro|, clock);
      if id in ids then id in before && id in restored && restored[id] == before[id].(lastAccessed := clock)
      else (id in restored <==> id in entries) && (id in entries ==> restored[id] == entries[id])
  {
    hide *;
    ListedByIds(micro, before, ids, id);
    var i := RestoredFrom(entries, micro, |micro|, clock, id);
    if id in ids { ListedUnchanged(micro, before, ids, i); }
  }

  lemma RestoredKeys(entries: Entries, micro: seq<OduEntry>, before: Entries, ids: set<string>, clock: nat)
    requires Lists(micro, before, ids) && KeyedById(before)
    ensures Restored(entries, micro, |micro|, clock).Keys == entries.Keys + ids
  {
    hide *;
    forall id ensures id in Restored(entries, micro, |micro|, clock) <==> id in entries || id in ids {
      RestoredAt(entries, micro, before, ids, clock, id);
    }
  }

  lemma ListedUnchanged(micro: seq<OduEntry>, before: Entries, ids: set<string>, i: nat)
    requires Lists(micro, before, ids) && i < |micro|
    ensures micro[i].id in before && before[micro[i].id] == micro[i]
  {
  }

  lemma ListedByIds(micro: seq<OduEntry>, before: Entries, ids: set<string>, id: string)
    requires Lists(micro, before, ids) && KeyedById(before)
    ensures ListedBy(micro, |micro|, id) <==> id in ids
  {
    if id in ids {
      var i :| 0 <= i < |micro| && micro[i] == before[id];
    }
  }

  // One fold unfolded: its path leaves `left`.

  lemma UnfoldLive(before: Entries, entries: Entries, config: RemConfig, now: nat, clock: nat,
                   left: set<string>, path: string, micro: seq<OduEntry>)
    requires KeyedById(before) && MacroIds(left, now) !! before.Keys
    requires entries.Keys == (before.Keys - Missing(before, config, left)) + MacroIds(left, now)
    requires ReturnedAll(before, entries, config, clock, Missing(before, config, left))
    requires path in left && left <= FoldedPaths(before, config)
    requires Lists(micro, before, Cluster(before, config.noiseImportance, path))
    ensures
      var restored, rest := Restored(entries - {MacroId(path, now)}, micro, |micro|, clock), left - {path};
      && restored.Keys == (before.Keys - Missing(before, config, rest)) + MacroIds(rest, now)
      && ReturnedAll(before, restored, config, clock, Missing(before, config, rest))
  {
    hide *;
    var line, rest, macroId := config.noiseImportance, left - {path}, MacroId(path, now);
    var ids := Cluster(before, line, path);
    RestoredKeys(entries - {macroId}, micro, before, ids, clock);
    assert rest + {path} == left;
    MacroIdsGrow(rest, path, now);
    MissingGrows(before, config, rest, path);
    ClusterIsFolded(before, config, rest, path);
    UnfoldKeys(before.Keys, entries.Keys, Missing(before, config, rest), ids, MacroIds(rest, now), macroId);
    UnfoldValues(before, entries, config, clock, Missing(before, config, rest), path, micro, macroId);
  }

  lemma MissingGrows(before: Entries, config: RemConfig, rest: set<string>, path: string)
    requires path !in rest
    ensures Missing(before, config, rest + {path})
        == Missing(before, config, rest) + Cluster(before, config.noiseImportance, path)
  {
    FoldedIdsGrow(before, config.noiseImportance, rest, path);
    hide FoldedIds, PrunedIds, Cluster;
  }

  lemma UnfoldValues(before: Entries, entries: Entries, config: RemConfig, clock: nat,
                     missing: set<string>, path: string, micro: seq<OduEntry>, macroId: string)
    requires KeyedById(before) && macroId !in before && path in FoldedPaths(before, config)
    requires ReturnedAll(before, entries, config, clock, missing + Cluster(before, config.noiseImportance, path))
    requires Lists(micro, before, Cluster(before, config.noiseImportance, path))
    ensures ReturnedAll(before, Restored(entries - {macroId}, micro, |micro|, clock), config, clock, missing)
  {
    hide Restored, Lists, FoldedIds, Cluster, PrunedIds, FoldedPaths, KeyedById;
    var ids := Cluster(before, config.noiseImportance, path);
    var restored := Restored(entries - {macroId}, micro, |micro|, clock);
    ClusterIsFolded(before, config, {}, path);
    forall id | id in before && id !in missing
      ensures id in restored && restored[id] == Returned(before, config, clock, id)
    {
      RestoredAt(entries - {macroId}, micro, before, ids, clock, id);
      if id !in ids { assert id in entries && entries[id] == Returned(before, config, clock, id); }
    }
  }

  lemma UnfoldKeys(before: set<string>, entries: set<string>, missing: set<string>, ids: set<string>,
                   macros: set<string>, macroId: string)
    requires entries == (before - (missing + ids)) + (macros + {macroId})
    requires ids <= before && ids !! missing && macroId !in before && macroId !in macros
    ensures (entries - {macroId}) + ids == (before - missing) + macros
  {
  }

  lemma ClusterIsFolded(before: Entries, config: RemConfig, rest: set<string>, path: string)
    requires path in FoldedPaths(before, config) && path !in rest
    ensures
      var ids := Cluster(before, config.noiseImportance, path);
      && ids <= FoldedIds(before, config.noiseImportance, FoldedPaths(before, config)) && ids <= before.Keys
      && ids !! Missing(before, config, rest)
  {
    hide FoldedPaths;
  }

  lemma UnfoldArchive(before: Entries, folds: Folds, current: Folds, line: real, now: nat, left: set<string>,
                      path: string)
    requires FoldedArchive(before, folds, current, line, now, left) && path in left && MacroIds(left, now) !! folds.Keys
    ensures MacroId(path, now) in current && Lists(current[MacroId(path, now)], before, Cluster(before, line, path))
    ensures FoldedArchive(before, folds, current - {MacroId(path, now)}, line, now, left - {path})
  {
    hide Lists, Cluster;
    var rest := left - {path};
    MacroIdsGrow(rest, path, now);
    assert rest + {path} == left;
    forall p | p in rest ensures MacroId(p, now) != MacroId(path, now) {
      if MacroId(p, now) == MacroId(path, now) { MacroIdIsInjective(p, now, path, now); }
    }
    hide MacroId, MacroIds;
  }

  function Left(all: set<string>, paths: seq<string>, n: nat): set<string>
    requires n <= |paths|
  {
    if n == 0 then all else Left(all, paths, n - 1) - {paths[n - 1]}
  }

  lemma {:induction false} LeftOver(all: set<string>, paths: seq<string>, n: nat, path: string)
    requires n <= |paths|
    ensures path in Left(all, paths, n) <==> path in all && forall i :: 0 <= i < n ==> paths[i] != path
  {
    if n == 0 {
    } else {
      LeftOver(all, paths, n - 1, path);
    }
  }

  lemma NextIsLeft(all: set<string>, paths: seq<string>, n: nat)
    requires n < |paths| && Enumerates(paths, all)
    ensures paths[n] in Left(all, paths, n) && Left(all, paths, n) <= all
  {
    assert paths[n] in paths;
    forall path ensures path in Left(all, paths, n) <==> path in all && forall i :: 0 <= i < n ==> paths[i] != path {
      LeftOver(all, paths, n, path);
    }
  }

  lemma NoneLeft(all: set<string>, paths: seq<string>)
    requires Enumerates(paths, all)
    ensures Left(all, paths, |paths|) == {}
  {
    forall path ensures path !in Left(all, paths, |paths|) {
      LeftOver(all, paths, |paths|, path);
    }
  }

  /** The directory while the folds of `left` are still to be unfolded. */
  ghost predicate PartlyUnfolded(before: Entries, folds: Folds, dir: Stored, config: RemConfig, now: nat,
                                 clock: nat, left: set<string>)
  {
    && dir.entries.Keys == (before.Keys - Missing(before, config, left)) + MacroIds(left, now)
    && ReturnedAll(before, dir.entries, config, clock, Missing(before, config, left))
    && FoldedArchive(before, folds, dir.folds, config.noiseImportance, now, left)
  }

  lemma UnfoldStep(before: Entries, folds: Folds, dir: Stored, config: RemConfig, now: nat, clock: nat,
                   left: set<string>, path: string)
    requires KeyedById(before) && FreshMacroIds(before, folds, config, now)
    requires PartlyUnfolded(before, folds, dir, config, now, clock, left)
    requires path in left && left <= FoldedPaths(before, config)
    ensures PartlyUnfolded(before, folds, Unfolded(dir, MacroId(path, now), clock), config, now, clock, left - {path})
  {
    hide FreshMacroIds, Missing, MacroIds, FoldedPaths, FoldedArchive, ReturnedAll, MacroId, Restored, KeyedById, Lists;
    var line, macroId := config.noiseImportance, MacroId(path, now);
    MacrosAreNew(before, folds, config, now, left);
    UnfoldArchive(before, folds, dir.folds, line, now, left, path);
    UnfoldLive(before, dir.entries, config, now, clock, left, path, dir.folds[macroId]);
  }

  lemma NothingUnfolded(before: Entries, folds: Folds, after: Entries, folds': Folds, config: RemConfig,
                        now: nat, clock: nat)
    requires RemCycle(before, folds, after, folds', config, now)
    ensures PartlyUnfolded(before, folds, Stored(after, folds'), config, now, clock, FoldedPaths(before, config))
  {
    hide FoldedPaths, MacroIds, FoldedArchive, FoldedMacros;
  }

  lemma {:induction false} UnfoldedSoFar(before: Entries, folds: Folds, after: Entries, folds': Folds,
                                         config: RemConfig,
                                         now: nat, paths: seq<string>, n: nat, clock: nat)
    requires KeyedById(before) && FreshMacroIds(before, folds, config, now)
    requires RemCycle(before, folds, after, folds', config, now)
    requires Enumerates(paths, FoldedPaths(before, config)) && n <= |paths|
    ensures
      PartlyUnfolded(before, folds, UnfoldedPaths(Stored(after, folds'), paths, n, now, clock), config, now, clock,
                     Left(FoldedPaths(before, config), paths, n))
  {
    hide KeyedById, FreshMacroIds, RemCycle, Enumerates, PartlyUnfolded, FoldedPaths, MacroId, Unfolded;
    if n == 0 {
      NothingUnfolded(before, folds, after, folds', config, now, clock);
    } else {
      UnfoldedSoFar(before, folds, after, folds', config, now, paths, n - 1, clock);
      NextIsLeft(FoldedPaths(before, config), paths, n - 1);
      UnfoldStep(before, folds, UnfoldedPaths(Stored(after, folds'), paths, n - 1, now, clock), config, now, clock,
                 Left(FoldedPaths(before, config), paths, n - 1), paths[n - 1]);
    }
  }

  /**
   The fold is lossless: unfolding the cycle's macro nodes, in any order, brings back the prior archive and
   every prior entry that was not pruned. Only the last-access time of the folded ones has moved.
   */
  lemma UnfoldingRestores(before: Entries, folds: Folds, after: Entries, folds': Folds, config: RemConfig,
                          now: nat, paths: seq<string>, clock: nat)
    requires KeyedById(before) && FreshMacroIds(before, folds, config, now)
    requires RemCycle(before, folds, after, folds', config, now)
    requires Enumerates(paths, FoldedPaths(before, config))
    ensures
      var dir := UnfoldedPaths(Stored(after, folds'), paths, |paths|, now, clock);
      && dir.folds == folds
      && dir.entries.Keys == before.Keys - PrunedIds(before, config)
      && forall id :: id in dir.entries ==> id in before && dir.entries[id] == Returned(before, config, clock, id)
  {
    hide KeyedById, FreshMacroIds, RemCycle, Enumerates, FoldedPaths, MacroId, Unfolded, UnfoldedPaths, Lists, Left,
        PrunedIds;
    UnfoldedSoFar(before, folds, after, folds', config, now, paths, |paths|, clock);
    NoneLeft(FoldedPaths(before, config), paths);
    assert Missing(before, config, {}) == PrunedIds(before, config);
  }
}
