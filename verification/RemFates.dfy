/**
 What a REM cycle does to an entry, told by importances and paths alone (omokoda-core/src/dream.rs), what its macro
 nodes weigh, what its report counts, and what ageing adds up to (omokoda-core/src/memory/memdir.rs).
 */
module RemFates {
  import opened Arithmetic
  import opened RemFold
  import opened RemFoldProperties

  /** The entries on a path that are no more important than the line. */
  function NoiseOn(entries: Entries, path: string, line: real): set<string> {
    set id | id in entries && entries[id].path == path && entries[id].importance <= line
  }

  /** Noise on a path with as much of it as the smallest cluster needs. */
  predicate IsFolded(entries: Entries, id: string, config: RemConfig)
    requires id in entries
  {
    && entries[id].importance <= config.noiseImportance
    && |NoiseOn(entries, entries[id].path, config.noiseImportance)| >= config.minFoldCluster
  }

  lemma FoldedIff(entries: Entries, id: string, config: RemConfig)
    requires id in entries
    ensures id in FoldedIds(entries, config.noiseImportance, FoldedPaths(entries, config))
       <==> IsFolded(entries, id, config)
  {
    var line, path := config.noiseImportance, entries[id].path;
    assert NoiseOn(entries, path, line) == Cluster(entries, line, path);
    if entries[id].importance <= line { assert id in Noise(entries, line); }
  }

  // ---- The fate of an entry ----

  /**
   An entry no more important than the noise line, on a path with enough of the like, is archived under the macro node
   of its path; one that is not but is below half the line is dropped; any other stays as it is.
   */
  lemma FateOfAnEntry(before: Entries, folds: Folds, after: Entries, folds': Folds, config: RemConfig, now: nat,
                      id: string)
    requires KeyedById(before) && FreshMacroIds(before, folds, config, now)
    requires RemCycle(before, folds, after, folds', config, now) && id in before
    ensures
      if IsFolded(before, id, config) then id !in after && FoldedAway(id, before, folds, folds', now)
      else
        && NotFolded(id, before, folds, folds')
        && if before[id].importance < config.noiseImportance / 2.0 then id !in after else StaysLive(id, before, after)
  {
    hide FoldedAway, NotFolded, StaysLive, IsFolded;
    FoldedIff(before, id, config);
    MacrosAreNew(before, folds, config, now, FoldedPaths(before, config));
    WhereItWent(before, folds, after, folds', config, now, id);
  }

  /** Nothing is live after a cycle but what was before and one macro node for each path that was folded. */
  lemma NothingElseIsLive(before: Entries, folds: Folds, after: Entries, folds': Folds, config: RemConfig, now: nat,
                          m: string)
    returns (id: string)
    requires RemCycle(before, folds, after, folds', config, now) && m in after && m !in before
    ensures id in before && IsFolded(before, id, config) && m == MacroId(before[id].path, now)
    ensures after[m].path == before[id].path && after[m].id == m
  {
    hide MacroId, IsFolded;
    assert m in MacroIds(FoldedPaths(before, config), now);
    var path :| path in FoldedPaths(before, config) && m == MacroId(path, now);
    id :| id in Noise(before, config.noiseImportance) && before[id].path == path;
    FoldedIff(before, id, config);
  }

  // ---- What a macro node weighs ----

  /**
   A macro node is as important as the noise line or a tenth, whichever is more, or a tenth more important than its most
   important member; so never more than a tenth above the line, or above zero when the line is below.
   */
  lemma MacroWeighs(before: Entries, folds: Folds, after: Entries, folds': Folds, config: RemConfig, now: nat,
                    id: string)
    requires RemCycle(before, folds, after, folds', config, now) && id in before && IsFolded(before, id, config)
    ensures
      var m, line := MacroId(before[id].path, now), config.noiseImportance;
      var members := NoiseOn(before, before[id].path, line);
      && m in after && after[m].importance >= RealMax(line, 0.1)
      && (forall e :: e in members ==> after[m].importance >= before[e].importance + 0.1)
      && (after[m].importance == RealMax(line, 0.1)
          || exists e :: e in members && after[m].importance == before[e].importance + 0.1)
      && after[m].importance <= RealMax(line, 0.0) + 0.1
  {
    hide MacroId, IsFolded, FoldedLive, FoldedArchive, CycleLive;
    var path := before[id].path;
    FoldedIff(before, id, config);
    assert NoiseOn(before, path, config.noiseImportance) == Cluster(before, config.noiseImportance, path);
    assert IsMacro(after[MacroId(path, now)], path, now, before, config.noiseImportance);
  }

  // ---- What the report counts ----

  lemma ReportCounts(before: Entries, config: RemConfig, now: nat)
    ensures
      var report := Report(before, config, now);
      && report.nodesBefore == |before| && report.timestamp == now
      && report.nodesFolded == |set id | id in before && IsFolded(before, id, config)|
      && report.clustersFolded == |set id | id in before && IsFolded(before, id, config) :: before[id].path|
      && report.nodesPruned
         == |set id | id in before && !IsFolded(before, id, config)
                      && before[id].importance < config.noiseImportance / 2.0|
  {
    hide IsFolded;
    var paths, line := FoldedPaths(before, config), config.noiseImportance;
    forall id | id in before ensures id in FoldedIds(before, line, paths) <==> IsFolded(before, id, config) {
      FoldedIff(before, id, config);
    }
    assert FoldedIds(before, line, paths) == set id | id in before && IsFolded(before, id, config);
    PathsOfFolded(before, config);
    assert PrunedIds(before, config)
        == set id | id in before && !IsFolded(before, id, config) && before[id].importance < line / 2.0;
  }

  lemma PathsOfFolded(before: Entries, config: RemConfig)
    ensures FoldedPaths(before, config) == set id | id in before && IsFolded(before, id, config) :: before[id].path
  {
    hide IsFolded;
    forall path ensures path in FoldedPaths(before, config)
                   <==> exists id :: id in before && IsFolded(before, id, config) && before[id].path == path
    {
      if path in FoldedPaths(before, config) {
        var id :| id in Noise(before, config.noiseImportance) && before[id].path == path;
        FoldedIff(before, id, config);
      }
      if id :| id in before && IsFolded(before, id, config) && before[id].path == path {
        FoldedIff(before, id, config);
      }
    }
  }

  // ---- Ageing ----

  /** Ageing lowers every importance by a tenth a day and stops at zero. */
  lemma AgedBy(entries: Entries, elapsedSecs: nat, id: string)
    requires id in entries && entries[id].importance >= 0.0
    ensures
      var aged := Aged(entries, elapsedSecs);
      && aged.Keys == entries.Keys && aged[id].(importance := 0.0) == entries[id].(importance := 0.0)
      && 0.0 <= aged[id].importance <= entries[id].importance
      && (aged[id].importance == 0.0 <==> elapsedSecs as real >= 864000.0 * entries[id].importance)
      && (aged[id].importance > 0.0 ==>
            864000.0 * (entries[id].importance - aged[id].importance) == elapsedSecs as real)
  {
  }

  /** Ageing twice is ageing once by the whole time. */
  lemma AgedTwice(entries: Entries, first: nat, second: nat)
    requires forall id :: id in entries ==> entries[id].importance >= 0.0
    ensures Aged(Aged(entries, first), second) == Aged(entries, first + second)
  {
  }

  // ---- Macro identifiers ----

  /** The number that a string of digits is read as. */
  function Read(s: string): int {
    if s == [] then 0 else 10 * Read(s[..|s| - 1]) + (s[|s| - 1] as int - '0' as int)
  }

  /** The time in a macro id is written in decimal: digits only, no leading zero, and read back as it was. */
  lemma {:induction false} DecimalReads(n: nat)
    ensures Read(Decimal(n)) == n
    ensures forall i :: 0 <= i < |Decimal(n)| ==> '0' <= Decimal(n)[i] <= '9'
    ensures Decimal(n)[0] == '0' <==> n == 0
  {
    if n < 10 {
      assert Decimal(n)[..0] == [];
    } else {
      DecimalReads(n / 10);
      assert Decimal(n)[..|Decimal(n)| - 1] == Decimal(n / 10);
    }
  }
}
