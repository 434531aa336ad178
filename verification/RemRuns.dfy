/**
 Whole lives of a memory directory (omokoda-core/src/dream.rs, omokoda-core/src/memory/memdir.rs): inserts, removals,
 ageing, prunes, polls of the REM schedule and unfolds, in any order and at any times. What each cycle needs always
 holds, and what was inserted stays live or archived until something ends it.
 */
module RemRuns {
  import opened RemFold
  import opened RemFoldProperties
  import opened RemSchedule

  datatype MemoryOp =
    | Insert(entry: OduEntry)
    | Remove(id: string)
    | Age(elapsedSecs: nat)
    | Prune(minImportance: real)
    | Poll(now: nat)
    | Unfold(macroId: string, clock: nat)

  /** The directory, and when the engine last ran a cycle on it. */
  datatype Memory = Memory(dir: Stored, last: LastRem)

  const NOTHING_YET := Memory(Stored(map[], map[]), Never)

  /** Whether the operation is a poll at which a cycle runs. */
  predicate Cycles(s: Memory, op: MemoryOp, config: RemConfig) {
    op.Poll? && ShouldRem(s.last, op.now, config.overdueAfter)
  }

  /** What every operation but a poll makes of the directory. */
  function Applied(dir: Stored, op: MemoryOp): Stored {
    match op
    case Insert(entry) => Stored(dir.entries[entry.id := entry], dir.folds)
    case Remove(id) => Stored(dir.entries - {id}, dir.folds)
    case Age(elapsedSecs) => Stored(Aged(dir.entries, elapsedSecs), dir.folds)
    case Prune(minImportance) => Stored(Kept(dir.entries, minImportance), dir.folds)
    case Poll(_) => dir
    case Unfold(macroId, clock) => Unfolded(dir, macroId, clock)
  }

  /** One operation; a cycle as its method promises it. */
  ghost predicate StepTo(s: Memory, op: MemoryOp, s': Memory, config: RemConfig) {
    if Cycles(s, op, config) then
      && s'.last == At(op.now)
      && (KeyedById(s.dir.entries) && FreshMacroIds(s.dir.entries, s.dir.folds, config, op.now) ==>
            RemCycle(s.dir.entries, s.dir.folds, s'.dir.entries, s'.dir.folds, config, op.now))
    else s' == Memory(Applied(s.dir, op), s.last)
  }

  // ---- Where an id is ----

  ghost predicate IsMacroId(id: string) {
    exists path: string, time: nat :: id == MacroId(path, time)
  }

  predicate InFold(s: Stored, m: string, i: nat) {
    m in s.folds && i < |s.folds[m]|
  }

  ghost predicate ArchivedIn(s: Stored, m: string, id: string) {
    exists i: nat :: InFold(s, m, i) && s.folds[m][i].id == id
  }

  ghost predicate Archived(s: Stored, id: string) {
    exists m: string :: ArchivedIn(s, m, id)
  }

  ghost predicate Known(s: Stored, id: string) {
    id in s.entries || Archived(s, id)
  }

  // ---- The invariant ----

  /** A macro id among earlier times, if it is one at all. */
  ghost predicate StampedBefore(id: string, t: nat) {
    forall path: string, time: nat :: id == MacroId(path, time) ==> time < t
  }

  ghost predicate LiveSound(s: Stored, t: nat) {
    forall id :: id in s.entries ==> s.entries[id].id == id && StampedBefore(id, t)
  }

  /** A fold is not empty, is kept under a macro id from before `t`, and holds only older macro nodes. */
  ghost predicate FoldSound(m: string, micro: seq<OduEntry>, t: nat) {
    exists path: string, time: nat ::
      && m == MacroId(path, time) && time < t && micro != []
      && forall i :: 0 <= i < |micro| ==> StampedBefore(micro[i].id, time)
  }

  ghost predicate FoldsSound(s: Stored, t: nat) {
    forall m :: m in s.folds ==> FoldSound(m, s.folds[m], t)
  }

  /** No archived entry is live, or archived twice. */
  ghost predicate OnePlace(s: Stored) {
    && (forall m: string, i: nat :: InFold(s, m, i) ==> s.folds[m][i].id !in s.entries)
    && (forall m: string, i: nat, m': string, i': nat ::
          InFold(s, m, i) && InFold(s, m', i') && s.folds[m][i].id == s.folds[m'][i'].id ==> m == m' && i == i')
  }

  ghost predicate Inv(s: Stored, t: nat) {
    LiveSound(s, t) && FoldsSound(s, t) && OnePlace(s)
  }

  /** What the runs below assume, of inserts only: a plain id, under which nothing is archived. */
  ghost predicate Allowed(s: Stored, op: MemoryOp) {
    op.Insert? ==> !IsMacroId(op.entry.id) && !Archived(s, op.entry.id)
  }

  lemma InvLater(s: Stored, t: nat, later: nat)
    requires Inv(s, t) && t <= later
    ensures Inv(s, later)
  {
    hide MacroId, OnePlace;
    forall m | m in s.folds ensures FoldSound(m, s.folds[m], later) {
      FoldSoundLater(m, s.folds[m], t, later);
    }
    hide FoldSound;
  }

  lemma FoldSoundLater(m: string, micro: seq<OduEntry>, t: nat, later: nat)
    requires FoldSound(m, micro, t) && t <= later
    ensures FoldSound(m, micro, later)
  {
    hide MacroId, StampedBefore;
  }

  // ---- Insert and remove ----

  lemma SameArchive(s: Stored, s': Stored, id: string)
    requires s.folds == s'.folds
    ensures Archived(s', id) <==> Archived(s, id)
  {
    if Archived(s, id) {
      var m :| ArchivedIn(s, m, id);
      assert ArchivedIn(s', m, id);
    }
    if Archived(s', id) {
      var m :| ArchivedIn(s', m, id);
      assert ArchivedIn(s, m, id);
    }
  }

  /** With the same folds, only the live entries matter to `OnePlace`. */
  lemma SamePlaces(s: Stored, s': Stored)
    requires OnePlace(s) && s.folds == s'.folds
    requires forall m: string, i: nat :: InFold(s', m, i) ==> s'.folds[m][i].id !in s'.entries
    ensures OnePlace(s')
  {
    forall m: string, i: nat, m': string, i': nat
      | InFold(s', m, i) && InFold(s', m', i') && s'.folds[m][i].id == s'.folds[m'][i'].id
      ensures m == m' && i == i'
    {
      assert InFold(s, m, i) && InFold(s, m', i');
    }
  }

  lemma FoldKeyIsMacro(s: Stored, t: nat, m: string)
    requires FoldsSound(s, t) && m in s.folds
    ensures IsMacroId(m)
  {
    assert FoldSound(m, s.folds[m], t);
  }

  lemma InsertKeepsInv(s: Stored, entry: OduEntry, t: nat)
    requires Inv(s, t) && Allowed(s, Insert(entry))
    ensures Inv(Stored(s.entries[entry.id := entry], s.folds), t)
  {
    hide MacroId, FoldSound, OnePlace, Archived;
    InsertPlaces(s, entry);
  }

  lemma InsertPlaces(s: Stored, entry: OduEntry)
    requires OnePlace(s) && !Archived(s, entry.id)
    ensures OnePlace(Stored(s.entries[entry.id := entry], s.folds))
  {
    var s' := Stored(s.entries[entry.id := entry], s.folds);
    forall m: string, i: nat | InFold(s', m, i) ensures s'.folds[m][i].id !in s'.entries {
      assert InFold(s, m, i);
      assert ArchivedIn(s, m, s.folds[m][i].id);
    }
    SamePlaces(s, s');
  }

  /** Removing, ageing and pruning leave the archive alone and bring no new id to life. */
  ghost predicate Thinned(s: Stored, s': Stored) {
    s'.folds == s.folds && forall id :: id in s'.entries ==> id in s.entries && s'.entries[id].id == s.entries[id].id
  }

  lemma ThinningKeepsInv(s: Stored, s': Stored, t: nat)
    requires Inv(s, t) && Thinned(s, s')
    ensures Inv(s', t)
  {
    hide StampedBefore, FoldSound;
    forall m: string, i: nat | InFold(s', m, i) ensures s'.folds[m][i].id !in s'.entries {
      assert InFold(s, m, i);
    }
    SamePlaces(s, s');
  }

  lemma Thins(s: Stored, op: MemoryOp)
    requires op.Remove? || op.Age? || op.Prune? || op.Poll?
    ensures Thinned(s, Applied(s, op))
  {
  }

  // ---- Unfold ----

  /** Where an id is after its fold, or another, has been unfolded. */
  lemma UnfoldedAt(s: Stored, m: string, clock: nat, id: string) returns (i: nat)
    requires m in s.folds
    ensures
      var s' := Unfolded(s, m, clock);
      if ArchivedIn(s, m, id) then
        && InFold(s, m, i) && s.folds[m][i].id == id
        && id in s'.entries && s'.entries[id] == s.folds[m][i].(lastAccessed := clock)
      else (id in s'.entries <==> id in s.entries && id != m) && (id in s'.entries ==> s'.entries[id] == s.entries[id])
  {
    hide Restored;
    i := RestoredFrom(s.entries - {m}, s.folds[m], |s.folds[m]|, clock, id);
    ListedIsArchived(s, m, id);
  }

  lemma ListedIsArchived(s: Stored, m: string, id: string)
    requires m in s.folds
    ensures ListedBy(s.folds[m], |s.folds[m]|, id) <==> ArchivedIn(s, m, id)
  {
    if ArchivedIn(s, m, id) {
      var j: nat :| InFold(s, m, j) && s.folds[m][j].id == id;
    }
    if ListedBy(s.folds[m], |s.folds[m]|, id) {
      var j: nat :| j < |s.folds[m]| && s.folds[m][j].id == id;
      assert InFold(s, m, j);
    }
  }

  lemma UnfoldLive(s: Stored, m: string, clock: nat, t: nat)
    requires Inv(s, t) && m in s.folds
    ensures LiveSound(Unfolded(s, m, clock), t)
  {
    hide MacroId, IsMacroId, OnePlace, Unfolded, ArchivedIn, StampedBefore;
    var s' := Unfolded(s, m, clock);
    forall id | id in s'.entries ensures s'.entries[id].id == id && StampedBefore(id, t) {
      var i := UnfoldedAt(s, m, clock, id);
      if ArchivedIn(s, m, id) { FoldedIsSound(s, m, i, t); }
    }
  }

  lemma FoldedIsSound(s: Stored, m: string, i: nat, t: nat)
    requires FoldsSound(s, t) && InFold(s, m, i)
    ensures StampedBefore(s.folds[m][i].id, t)
  {
    hide MacroId;
    assert FoldSound(m, s.folds[m], t);
  }

  lemma UnfoldFolds(s: Stored, m: string, clock: nat)
    requires m in s.folds
    ensures Unfolded(s, m, clock).folds == s.folds - {m}
  {
  }

  lemma ArchivedElsewhere(s: Stored, m: string, clock: nat, k: string, id: string)
    requires m in s.folds && k != m
    ensures ArchivedIn(Unfolded(s, m, clock), k, id) <==> ArchivedIn(s, k, id)
  {
    hide Restored;
    var s' := Unfolded(s, m, clock);
    if ArchivedIn(s, k, id) {
      var i: nat :| InFold(s, k, i) && s.folds[k][i].id == id;
      assert InFold(s', k, i);
    }
    if ArchivedIn(s', k, id) {
      var i: nat :| InFold(s', k, i) && s'.folds[k][i].id == id;
      assert InFold(s, k, i);
    }
  }

  /** Whatever is known stays known, but for the macro node itself. */
  lemma UnfoldKnown(s: Stored, m: string, clock: nat, id: string)
    requires m in s.folds && Known(s, id) && id != m
    ensures Known(Unfolded(s, m, clock), id)
  {
    hide Unfolded, ArchivedIn;
    var i := UnfoldedAt(s, m, clock, id);
    if id !in s.entries && !ArchivedIn(s, m, id) {
      var k :| ArchivedIn(s, k, id);
      ArchivedElsewhere(s, m, clock, k, id);
    }
  }

  lemma UnfoldPlaces(s: Stored, m: string, clock: nat)
    requires OnePlace(s) && m in s.folds
    ensures OnePlace(Unfolded(s, m, clock))
  {
    UnfoldFolds(s, m, clock);
    hide Unfolded;
    var s' := Unfolded(s, m, clock);
    forall k: string, i: nat | InFold(s', k, i) ensures s'.folds[k][i].id !in s'.entries {
      assert InFold(s, k, i);
      var j := UnfoldedAt(s, m, clock, s.folds[k][i].id);
    }
    forall k: string, i: nat, k': string, i': nat
      | InFold(s', k, i) && InFold(s', k', i') && s'.folds[k][i].id == s'.folds[k'][i'].id
      ensures k == k' && i == i'
    {
      assert InFold(s, k, i) && InFold(s, k', i');
    }
  }

  lemma UnfoldKeepsInv(s: Stored, m: string, clock: nat, t: nat)
    requires Inv(s, t)
    ensures Inv(Unfolded(s, m, clock), t)
  {
    if m in s.folds {
      UnfoldLive(s, m, clock, t);
      UnfoldFolds(s, m, clock);
      UnfoldPlaces(s, m, clock);
      hide Unfolded, LiveSound, OnePlace, FoldSound;
    }
  }

  // ---- Cycle ----

  /** The invariant gives a cycle, at a time after every earlier one, all that its method needs. */
  lemma InvIsReady(s: Stored, config: RemConfig, now: nat)
    requires Inv(s, now)
    ensures KeyedById(s.entries) && FreshMacroIds(s.entries, s.folds, config, now)
  {
    hide MacroId, FoldedPaths, OnePlace;
    forall m | m in MacroIds(FoldedPaths(s.entries, config), now) ensures m !in s.entries && m !in s.folds {
      var path :| path in FoldedPaths(s.entries, config) && MacroId(path, now) == m;
      if m in s.folds {
        assert FoldSound(m, s.folds[m], now);
        var other: string, time: nat :| m == MacroId(other, time) && time < now;
        MacroIdIsInjective(path, now, other, time);
      }
    }
  }

  /** A cycle that found what it needs. */
  ghost predicate Cycled(s: Stored, s': Stored, config: RemConfig, now: nat) {
    && KeyedById(s.entries) && FreshMacroIds(s.entries, s.folds, config, now)
    && RemCycle(s.entries, s.folds, s'.entries, s'.folds, config, now)
  }

  ghost predicate NewNode(s: Stored, config: RemConfig, now: nat, m: string) {
    exists path :: path in FoldedPaths(s.entries, config) && m == MacroId(path, now)
  }

  lemma NewNodeIff(s: Stored, config: RemConfig, now: nat, m: string)
    ensures NewNode(s, config, now, m) <==> m in MacroIds(FoldedPaths(s.entries, config), now)
  {
    hide MacroId, FoldedPaths;
  }

  /** A live entry after the cycle was live before, or is a macro node of the cycle. */
  lemma LiveAfter(s: Stored, s': Stored, config: RemConfig, now: nat, id: string)
    requires Cycled(s, s', config, now) && id in s'.entries
    ensures
      if id in s.entries then
        && s'.entries[id] == s.entries[id] && !NewNode(s, config, now, id)
        && id !in FoldedIds(s.entries, config.noiseImportance, FoldedPaths(s.entries, config))
      else NewNode(s, config, now, id)
  {
    hide MacroId, FoldedPaths, FoldedIds, PrunedIds, FoldedMacros, FoldedArchive, NewNode, MacroIds;
    NewNodeIff(s, config, now, id);
  }

  lemma NodeAfter(s: Stored, s': Stored, config: RemConfig, now: nat, m: string)
    requires Cycled(s, s', config, now) && NewNode(s, config, now, m)
    ensures m in s'.entries && m in s'.folds && m !in s.entries && m !in s.folds
    ensures s'.entries[m].id == m && s'.entries[m].importance >= config.noiseImportance / 2.0
    ensures StampedBefore(m, now + 1)
  {
    NewNodeIff(s, config, now, m);
    var path :| path in FoldedPaths(s.entries, config) && m == MacroId(path, now);
    hide MacroId, FoldedPaths, FoldedIds, PrunedIds, CycleLive, MacroIds, Lists;
    MacroSurvives(s'.entries[m], path, now, s.entries, config.noiseImportance);
    forall other: string, time: nat | m == MacroId(other, time) ensures time < now + 1 {
      MacroIdIsInjective(path, now, other, time);
    }
  }

  /** A fold after the cycle is an earlier one, or lists the cluster of one folded path. */
  lemma FoldAfter(s: Stored, s': Stored, config: RemConfig, now: nat, m: string) returns (path: string)
    requires Cycled(s, s', config, now) && m in s'.folds
    ensures
      if m in s.folds then s'.folds[m] == s.folds[m]
      else
        && path in FoldedPaths(s.entries, config) && m == MacroId(path, now)
        && Lists(s'.folds[m], s.entries, Cluster(s.entries, config.noiseImportance, path))
  {
    hide MacroId, FoldedPaths, FoldedIds, PrunedIds, CycleLive, Lists, Cluster, FoldedMacros;
    path := "";
    if m !in s.folds {
      path :| path in FoldedPaths(s.entries, config) && MacroId(path, now) == m;
    }
  }

  lemma EarlierFoldsStay(s: Stored, s': Stored, config: RemConfig, now: nat, m: string)
    requires Cycled(s, s', config, now) && m in s.folds
    ensures m in s'.folds && s'.folds[m] == s.folds[m]
  {
    hide MacroId, FoldedPaths, FoldedIds, PrunedIds, CycleLive, Lists, Cluster, FoldedMacros, MacroIds;
  }

  /** An entry of a new fold was live, on the fold's path, and is not live any more. */
  lemma NewlyFolded(s: Stored, s': Stored, config: RemConfig, now: nat, m: string, i: nat)
    requires Cycled(s, s', config, now) && InFold(s', m, i) && m !in s.folds
    ensures
      var e := s'.folds[m][i];
      && e.id in s.entries && s.entries[e.id] == e && m == MacroId(e.path, now)
      && e.path in FoldedPaths(s.entries, config)
      && e.id in FoldedIds(s.entries, config.noiseImportance, FoldedPaths(s.entries, config))
    ensures forall j :: 0 <= j < |s'.folds[m]| && j != i ==> s'.folds[m][j].id != s'.folds[m][i].id
  {
    var path := FoldAfter(s, s', config, now, m);
    hide MacroId, FoldedPaths, RemCycle, FreshMacroIds;
  }

  lemma CycleLiveSound(s: Stored, s': Stored, config: RemConfig, now: nat)
    requires Inv(s, now) && Cycled(s, s', config, now)
    ensures LiveSound(s', now + 1)
  {
    hide MacroId, Cycled, NewNode, OnePlace, FoldSound;
    forall id | id in s'.entries ensures s'.entries[id].id == id && StampedBefore(id, now + 1) {
      LiveAfter(s, s', config, now, id);
      if id !in s.entries { NodeAfter(s, s', config, now, id); }
    }
  }

  lemma CycleFoldsSound(s: Stored, s': Stored, config: RemConfig, now: nat)
    requires Inv(s, now) && Cycled(s, s', config, now)
    ensures FoldsSound(s', now + 1)
  {
    hide MacroId, Cycled, StampedBefore, OnePlace, Lists, Cluster, FoldedPaths;
    forall m | m in s'.folds ensures FoldSound(m, s'.folds[m], now + 1) {
      var path := FoldAfter(s, s', config, now, m);
      if m in s.folds {
        FoldSoundLater(m, s.folds[m], now, now + 1);
      } else {
        NewFoldIsNotEmpty(s, s', config, now, m, path);
        forall i | 0 <= i < |s'.folds[m]| ensures StampedBefore(s'.folds[m][i].id, now) {
          NewlyFolded(s, s', config, now, m, i);
        }
      }
    }
  }

  lemma NewFoldIsNotEmpty(s: Stored, s': Stored, config: RemConfig, now: nat, m: string, path: string)
    requires m in s'.folds && path in FoldedPaths(s.entries, config)
    requires Lists(s'.folds[m], s.entries, Cluster(s.entries, config.noiseImportance, path))
    ensures s'.folds[m] != []
  {
    NoiseCluster(s.entries, config.noiseImportance, {path}, path);
    ListsSomething(s'.folds[m], s.entries, Cluster(s.entries, config.noiseImportance, path));
  }

  /** Whatever is known stays known, unless it was live and pruned. */
  lemma CycleKnown(s: Stored, s': Stored, config: RemConfig, now: nat, id: string)
    requires Cycled(s, s', config, now) && Known(s, id) && id !in PrunedIds(s.entries, config)
    ensures Known(s', id)
  {
    hide MacroId;
    if id in s.entries {
      MacrosAreNew(s.entries, s.folds, config, now, FoldedPaths(s.entries, config));
      WhereItWent(s.entries, s.folds, s'.entries, s'.folds, config, now, id);
      if id !in s'.entries {
        var m := MacroId(s.entries[id].path, now);
        var i: nat :| i < |s'.folds[m]| && s'.folds[m][i] == s.entries[id];
        assert InFold(s', m, i);
        assert ArchivedIn(s', m, id);
      }
    } else {
      var m :| ArchivedIn(s, m, id);
      EarlierFoldsStay(s, s', config, now, m);
      var i: nat :| InFold(s, m, i) && s.folds[m][i].id == id;
      assert InFold(s', m, i);
      assert ArchivedIn(s', m, id);
    }
  }

  lemma EarlierIsNotNew(s: Stored, config: RemConfig, now: nat, id: string)
    requires StampedBefore(id, now)
    ensures !NewNode(s, config, now, id)
  {
    hide MacroId;
  }

  /** No entry archived before the cycle comes back to life in it. */
  lemma EarlierFoldedIsNotLive(s: Stored, s': Stored, config: RemConfig, now: nat, m: string, i: nat)
    requires Inv(s, now) && Cycled(s, s', config, now) && InFold(s, m, i)
    ensures s.folds[m][i].id !in s'.entries
  {
    hide MacroId, Cycled, NewNode, LiveSound;
    var id := s.folds[m][i].id;
    FoldedIsSound(s, m, i, now);
    EarlierIsNotNew(s, config, now, id);
    if id in s'.entries { LiveAfter(s, s', config, now, id); }
  }

  lemma NewlyFoldedIsNotLive(s: Stored, s': Stored, config: RemConfig, now: nat, m: string, i: nat)
    requires Inv(s, now) && Cycled(s, s', config, now) && InFold(s', m, i) && m !in s.folds
    ensures s'.folds[m][i].id !in s'.entries
  {
    hide MacroId, Cycled, NewNode, OnePlace, LiveSound;
    var id := s'.folds[m][i].id;
    NewlyFolded(s, s', config, now, m, i);
    if id in s'.entries { LiveAfter(s, s', config, now, id); }
  }

  lemma CyclePlaces(s: Stored, s': Stored, config: RemConfig, now: nat)
    requires Inv(s, now) && Cycled(s, s', config, now)
    ensures OnePlace(s')
  {
    hide MacroId, Cycled, LiveSound, FoldsSound, Lists, Cluster, FoldedPaths, FoldedIds;
    forall m: string, i: nat | InFold(s', m, i) ensures s'.folds[m][i].id !in s'.entries {
      var path := FoldAfter(s, s', config, now, m);
      if m in s.folds {
        assert InFold(s, m, i);
        EarlierFoldedIsNotLive(s, s', config, now, m, i);
      } else {
        NewlyFoldedIsNotLive(s, s', config, now, m, i);
      }
    }
    forall m: string, i: nat, m': string, i': nat
      | InFold(s', m, i) && InFold(s', m', i') && s'.folds[m][i].id == s'.folds[m'][i'].id
      ensures m == m' && i == i'
    {
      SamePlaceAfter(s, s', config, now, m, i, m', i');
    }
  }

  lemma SamePlaceAfter(s: Stored, s': Stored, config: RemConfig, now: nat, m: string, i: nat, m': string, i': nat)
    requires OnePlace(s) && Cycled(s, s', config, now)
    requires InFold(s', m, i) && InFold(s', m', i') && s'.folds[m][i].id == s'.folds[m'][i'].id
    ensures m == m' && i == i'
  {
    hide MacroId, Cycled, Lists, Cluster, FoldedPaths, FoldedIds;
    var path := FoldAfter(s, s', config, now, m);
    var path' := FoldAfter(s, s', config, now, m');
    if m in s.folds { assert InFold(s, m, i); } else { NewlyFolded(s, s', config, now, m, i); }
    if m' in s.folds { assert InFold(s, m', i'); } else { NewlyFolded(s, s', config, now, m', i'); }
  }

  lemma CycleKeepsInv(s: Stored, s': Stored, config: RemConfig, now: nat)
    requires Inv(s, now) && Cycled(s, s', config, now)
    ensures Inv(s', now + 1)
  {
    CycleLiveSound(s, s', config, now);
    CycleFoldsSound(s, s', config, now);
    CyclePlaces(s, s', config, now);
  }

  // ---- Runs ----

  /** A directory's life from empty. The clock may do as it likes. */
  ghost predicate IsRun(states: seq<Memory>, ops: seq<MemoryOp>, config: RemConfig) {
    && |states| == |ops| + 1 && states[0] == NOTHING_YET
    && (forall i ::
          0 <= i < |ops| ==> StepTo(states[i], ops[i], states[i + 1], config) && Allowed(states[i].dir, ops[i]))
  }

  /** The first second after the last cycle. */
  function Since(last: LastRem): nat {
    match last
    case Never => 0
    case At(time) => time + 1
  }

  lemma StepKeepsInv(s: Memory, op: MemoryOp, s': Memory, config: RemConfig)
    requires config.overdueAfter >= 1 && Inv(s.dir, Since(s.last))
    requires StepTo(s, op, s', config) && Allowed(s.dir, op)
    ensures Inv(s'.dir, Since(s'.last))
  {
    hide Inv, RemCycle, FreshMacroIds, KeyedById, Unfolded, Archived, IsMacroId, ShouldRem, Thinned, Aged, Kept;
    match op {
      case Insert(entry) => InsertKeepsInv(s.dir, entry, Since(s.last));
      case Unfold(m, clock) => UnfoldKeepsInv(s.dir, m, clock, Since(s.last));
      case Poll(now) =>
        if Cycles(s, op, config) {
          CycleIsReady(s, config, now);
          CycleKeepsInv(s.dir, s'.dir, config, now);
        }
      case _ =>
        Thins(s.dir, op);
        ThinningKeepsInv(s.dir, s'.dir, Since(s.last));
    }
  }

  /** As cycles come at increasing times when the overdue limit is positive, a due cycle finds only older macro ids. */
  lemma CycleIsReady(s: Memory, config: RemConfig, now: nat)
    requires config.overdueAfter >= 1 && Inv(s.dir, Since(s.last)) && ShouldRem(s.last, now, config.overdueAfter)
    ensures Inv(s.dir, now)
    ensures KeyedById(s.dir.entries) && FreshMacroIds(s.dir.entries, s.dir.folds, config, now)
  {
    hide Inv, FreshMacroIds, KeyedById, ShouldRem;
    if s.last.At? { RunsLaterThanLast(s.last, now, config.overdueAfter); }
    InvLater(s.dir, Since(s.last), now);
    InvIsReady(s.dir, config, now);
  }

  lemma {:induction false} RunInv(states: seq<Memory>, ops: seq<MemoryOp>, config: RemConfig, n: nat)
    requires IsRun(states, ops, config) && config.overdueAfter >= 1 && n <= |ops|
    ensures Inv(states[n].dir, Since(states[n].last))
  {
    hide StepTo, Allowed;
    if n == 0 {
    } else {
      RunInv(states, ops, config, n - 1);
      hide Inv;
      StepKeepsInv(states[n - 1], ops[n - 1], states[n], config);
    }
  }

  /** In every run, every cycle finds the ids in order and its macro ids free, whatever was removed before. */
  lemma CyclesFindWhatTheyNeed(states: seq<Memory>, ops: seq<MemoryOp>, config: RemConfig, n: nat)
    requires IsRun(states, ops, config) && config.overdueAfter >= 1
    requires n < |ops| && Cycles(states[n], ops[n], config)
    ensures Cycled(states[n].dir, states[n + 1].dir, config, ops[n].now)
  {
    hide Inv, RemCycle, FreshMacroIds, KeyedById, Archived, IsMacroId, ShouldRem;
    RunInv(states, ops, config, n);
    CycleIsReady(states[n], config, ops[n].now);
    assert StepTo(states[n], ops[n], states[n + 1], config);
  }

  /** The limit has to be positive: at zero a cycle is due again in the same second, on the same macro ids. */
  lemma SameSecondCollides(s: Stored, s': Stored, config: RemConfig, now: nat, path: string)
    requires Cycled(s, s', config, now) && path in FoldedPaths(s.entries, config)
        && path in FoldedPaths(s'.entries, config)
    ensures ShouldRem(At(now), now, 0) && !FreshMacroIds(s'.entries, s'.folds, config, now)
  {
    assert NewNode(s, config, now, MacroId(path, now));
    NodeAfter(s, s', config, now, MacroId(path, now));
    hide FoldedPaths, MacroId, Cycled;
    assert MacroId(path, now) in MacroIds(FoldedPaths(s'.entries, config), now);
  }

  // ---- Nothing inserted is lost ----

  /** Equal but for the time of the last access and, if there was ageing, the importance. */
  predicate SameCore(a: OduEntry, b: OduEntry, aged: bool) {
    && a.(lastAccessed := 0, importance := 0.0) == b.(lastAccessed := 0, importance := 0.0)
    && (!aged ==> a.importance == b.importance)
  }

  ghost predicate HeldIn(s: Stored, m: string, i: nat, e: OduEntry, aged: bool) {
    InFold(s, m, i) && SameCore(s.folds[m][i], e, aged)
  }

  predicate HeldLive(s: Stored, e: OduEntry, aged: bool) {
    e.id in s.entries && SameCore(s.entries[e.id], e, aged)
  }

  /** Live, or archived in some fold, unchanged as far as `SameCore` says. */
  ghost predicate Held(s: Stored, e: OduEntry, aged: bool) {
    HeldLive(s, e, aged) || exists m: string, i: nat :: HeldIn(s, m, i, e, aged)
  }

  /** What ends an entry: an insert under its id, or its removal or prune while it is live. */
  predicate Ends(s: Memory, op: MemoryOp, config: RemConfig, id: string) {
    match op
    case Insert(entry) => entry.id == id
    case Remove(removed) => removed == id && id in s.dir.entries
    case Age(_) => false
    case Prune(minImportance) => id in s.dir.entries && s.dir.entries[id].importance < minImportance
    case Poll(_) => Cycles(s, op, config) && id in PrunedIds(s.dir.entries, config)
    case Unfold(_, _) => false
  }

  lemma CycleHolds(s: Stored, s': Stored, config: RemConfig, now: nat, e: OduEntry, aged: bool)
    requires Cycled(s, s', config, now) && Held(s, e, aged) && e.id !in PrunedIds(s.entries, config)
    ensures Held(s', e, aged)
  {
    hide MacroId;
    if HeldLive(s, e, aged) {
      MacrosAreNew(s.entries, s.folds, config, now, FoldedPaths(s.entries, config));
      WhereItWent(s.entries, s.folds, s'.entries, s'.folds, config, now, e.id);
      if e.id !in s'.entries {
        var m := MacroId(e.path, now);
        var i: nat :| i < |s'.folds[m]| && s'.folds[m][i] == s.entries[e.id];
        assert HeldIn(s', m, i, e, aged);
      }
    } else {
      var m: string, i: nat :| HeldIn(s, m, i, e, aged);
      EarlierFoldsStay(s, s', config, now, m);
      assert HeldIn(s', m, i, e, aged);
    }
  }

  lemma UnfoldHolds(s: Stored, m: string, clock: nat, e: OduEntry, aged: bool)
    requires OnePlace(s) && Held(s, e, aged) && e.id != m
    ensures Held(Unfolded(s, m, clock), e, aged)
  {
    hide MacroId, Restored;
    if m in s.folds {
      UnfoldFolds(s, m, clock);
      var s' := Unfolded(s, m, clock);
      var j := UnfoldedAt(s, m, clock, e.id);
      if HeldLive(s, e, aged) {
        LiveIsNotArchived(s, m, e.id);
      } else {
        var k: string, i: nat :| HeldIn(s, k, i, e, aged);
        if k == m {
          assert ArchivedIn(s, m, e.id);
        } else {
          assert HeldIn(s', k, i, e, aged);
        }
      }
    }
  }

  lemma LiveIsNotArchived(s: Stored, m: string, id: string)
    requires OnePlace(s) && id in s.entries
    ensures !ArchivedIn(s, m, id)
  {
  }

  /** An operation that touches only live entries leaves an archived one where it is. */
  lemma ArchiveHolds(s: Stored, s': Stored, e: OduEntry, aged: bool)
    requires Held(s, e, aged) && s'.folds == s.folds && (HeldLive(s, e, aged) ==> HeldLive(s', e, aged))
    ensures Held(s', e, aged)
  {
    if !HeldLive(s, e, aged) {
      var m: string, i: nat :| HeldIn(s, m, i, e, aged);
      assert HeldIn(s', m, i, e, aged);
    }
  }

  lemma HeldStep(s: Memory, op: MemoryOp, s': Memory, config: RemConfig, t: nat, e: OduEntry, aged: bool)
    requires Inv(s.dir, t) && StepTo(s, op, s', config)
    requires Cycles(s, op, config) ==> Cycled(s.dir, s'.dir, config, op.now)
    requires Held(s.dir, e, aged) && !IsMacroId(e.id) && !Ends(s, op, config, e.id) && (op.Age? ==> aged)
    ensures Held(s'.dir, e, aged)
  {
    hide RemCycle, FreshMacroIds, KeyedById, Unfolded, IsMacroId, Cycled, PrunedIds, LiveSound, FoldSound, OnePlace,
         Held, ShouldRem;
    match op {
      case Poll(now) =>
        if Cycles(s, op, config) { CycleHolds(s.dir, s'.dir, config, now, e, aged); }
      case Unfold(m, clock) =>
        if m in s.dir.folds {
          FoldKeyIsMacro(s.dir, t, m);
          UnfoldHolds(s.dir, m, clock, e, aged);
        } else {
          NoSuchFold(s.dir, m, clock);
        }
      case _ => ArchiveHolds(s.dir, s'.dir, e, aged);
    }
  }

  lemma NoSuchFold(s: Stored, m: string, clock: nat)
    requires m !in s.folds
    ensures Unfolded(s, m, clock) == s
  {
  }

  lemma HeldAnyway(s: Stored, e: OduEntry, aged: bool)
    requires Held(s, e, aged)
    ensures Held(s, e, true)
  {
    if !HeldLive(s, e, true) {
      var m: string, i: nat :| HeldIn(s, m, i, e, aged);
      assert HeldIn(s, m, i, e, true);
    }
  }

  predicate AgedBetween(ops: seq<MemoryOp>, i: nat, n: nat)
    requires n <= |ops|
  {
    exists j :: i < j < n && ops[j].Age?
  }

  /**
   An entry inserted at operation `i` is live or archived after any further operations, however often it was folded
   and unfolded and whichever other entries or macro nodes were removed, as long as none of them ended it. Its last
   access may have moved, and its importance if there was ageing.
   */
  lemma {:induction false} InsertedIsHeld(states: seq<Memory>, ops: seq<MemoryOp>, config: RemConfig, i: nat, n: nat)
    requires IsRun(states, ops, config) && config.overdueAfter >= 1 && i < n <= |ops| && ops[i].Insert?
    requires forall j :: i < j < n ==> !Ends(states[j], ops[j], config, ops[i].entry.id)
    ensures Held(states[n].dir, ops[i].entry, AgedBetween(ops, i, n))
  {
    hide Inv, Ends, StepTo, Held, Cycles, Archived, IsMacroId;
    var e := ops[i].entry;
    assert StepTo(states[n - 1], ops[n - 1], states[n], config) && Allowed(states[i].dir, ops[i]);
    if n == i + 1 {
      JustInserted(states[i], states[n], config, e, AgedBetween(ops, i, n));
    } else {
      InsertedIsHeld(states, ops, config, i, n - 1);
      RunInv(states, ops, config, n - 1);
      if Cycles(states[n - 1], ops[n - 1], config) { CyclesFindWhatTheyNeed(states, ops, config, n - 1); }
      AgedLonger(ops, i, n);
      if AgedBetween(ops, i, n) { HeldAnyway(states[n - 1].dir, e, AgedBetween(ops, i, n - 1)); }
      HeldStep(states[n - 1], ops[n - 1], states[n], config, Since(states[n - 1].last), e, AgedBetween(ops, i, n));
    }
  }

  lemma AgedLonger(ops: seq<MemoryOp>, i: nat, n: nat)
    requires i + 1 < n <= |ops|
    ensures AgedBetween(ops, i, n) <==> AgedBetween(ops, i, n - 1) || ops[n - 1].Age?
  {
  }

  lemma JustInserted(s: Memory, s': Memory, config: RemConfig, e: OduEntry, aged: bool)
    requires StepTo(s, Insert(e), s', config)
    ensures Held(s'.dir, e, aged)
  {
    assert HeldLive(s'.dir, e, aged);
  }

  /** An archived entry is one unfold away from being live again. */
  lemma OneUnfoldRestores(s: Stored, m: string, i: nat, clock: nat, e: OduEntry, aged: bool)
    requires OnePlace(s) && HeldIn(s, m, i, e, aged)
    ensures HeldLive(Unfolded(s, m, clock), e, aged)
  {
    hide Unfolded;
    assert ArchivedIn(s, m, e.id);
    var j := UnfoldedAt(s, m, clock, e.id);
  }

  /** The bar on reused ids is needed: unfolding puts an archived entry over a live one of the same id. */
  lemma UnfoldOverwrites(s: Stored, m: string, clock: nat, id: string, aged: bool)
    requires ArchivedIn(s, m, id) && id in s.entries
    requires forall i: nat ::
      InFold(s, m, i) && s.folds[m][i].id == id ==> !SameCore(s.folds[m][i], s.entries[id], aged)
    ensures id in Unfolded(s, m, clock).entries && !SameCore(Unfolded(s, m, clock).entries[id], s.entries[id], aged)
  {
    hide Unfolded;
    var j := UnfoldedAt(s, m, clock, id);
  }
}
