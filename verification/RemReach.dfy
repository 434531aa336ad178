/**
 Which archived entries can still be found from the live macro nodes (omokoda-core/src/memory/memdir.rs): all of them,
 until an operation takes a live macro node whose fold is still archived.
 */
module RemReach {
  import opened RemFold
  import opened RemFoldProperties
  import opened RemRuns

  /** `id` is live, or in the fold of an id that leads on, in at most `depth` unfolds. */
  ghost predicate Leads(s: Stored, id: string, depth: nat)
    decreases depth
  {
    id in s.entries || (depth > 0 && exists m: string :: ArchivedIn(s, m, id) && Leads(s, m, depth - 1))
  }

  ghost predicate Reachable(s: Stored, id: string) {
    exists depth: nat :: Leads(s, id, depth)
  }

  /** Nested unfolding from the live macro nodes finds everything the directory knows. */
  ghost predicate AllReachable(s: Stored) {
    forall id :: Known(s, id) ==> Reachable(s, id)
  }

  /** The node of every fold is live, or archived in another fold. */
  ghost predicate NodesKnown(s: Stored) {
    forall m :: m in s.folds ==> Known(s, m)
  }

  // ---- In one directory ----

  /** A macro node that is not live is in the fold of a later one. */
  lemma NodeAbove(s: Stored, t: nat, m: string, path: string, time: nat)
    returns (k: string, other: string, later: nat)
    requires FoldsSound(s, t) && Archived(s, m) && m == MacroId(path, time)
    ensures ArchivedIn(s, k, m) && k in s.folds && k == MacroId(other, later) && time < later < t
  {
    hide MacroId;
    k :| ArchivedIn(s, k, m);
    var i: nat :| InFold(s, k, i) && s.folds[k][i].id == m;
    assert FoldSound(k, s.folds[k], t);
    other, later :|
      && k == MacroId(other, later) && later < t && s.folds[k] != []
      && forall j :: 0 <= j < |s.folds[k]| ==> StampedBefore(s.folds[k][j].id, later);
    assert StampedBefore(s.folds[k][i].id, later);
  }

  lemma {:induction false} NodeLeads(s: Stored, t: nat, m: string, path: string, time: nat)
    requires FoldsSound(s, t) && NodesKnown(s) && m in s.folds && m == MacroId(path, time) && time < t
    ensures Leads(s, m, t - time)
    decreases t - time
  {
    hide MacroId, FoldsSound, ArchivedIn;
    assert Known(s, m);
    if m !in s.entries {
      var k, other, later := NodeAbove(s, t, m, path, time);
      NodeLeads(s, t, k, other, later);
      LeadsDeeper(s, k, t - later, t - time - 1);
    }
  }

  lemma {:induction false} LeadsDeeper(s: Stored, id: string, depth: nat, more: nat)
    requires Leads(s, id, depth) && depth <= more
    ensures Leads(s, id, more)
    decreases depth
  {
    if id !in s.entries {
      var m :| ArchivedIn(s, m, id) && Leads(s, m, depth - 1);
      LeadsDeeper(s, m, depth - 1, more - 1);
    }
  }

  lemma KnownLeads(s: Stored, t: nat, id: string)
    requires FoldsSound(s, t) && NodesKnown(s) && Known(s, id)
    ensures Reachable(s, id)
  {
    hide MacroId, NodesKnown;
    if id in s.entries {
      assert Leads(s, id, 0);
    } else {
      var m :| ArchivedIn(s, m, id);
      assert FoldSound(m, s.folds[m], t);
      var path: string, time: nat :| m == MacroId(path, time) && time < t;
      NodeLeads(s, t, m, path, time);
      assert Leads(s, id, t - time + 1);
    }
  }

  /** The entries of a fold whose node is nowhere are known, but nothing leads to them. */
  lemma OrphanedEntry(s: Stored, t: nat, m: string) returns (id: string)
    requires Inv(s, t) && m in s.folds && !Known(s, m)
    ensures Known(s, id) && !Reachable(s, id)
  {
    hide MacroId, LiveSound;
    assert FoldSound(m, s.folds[m], t);
    id := s.folds[m][0].id;
    assert InFold(s, m, 0);
    assert ArchivedIn(s, m, id);
    LeadsThroughFold(s, m, id);
  }

  lemma LeadsThroughFold(s: Stored, m: string, id: string)
    requires OnePlace(s) && ArchivedIn(s, m, id)
    ensures Reachable(s, id) ==> Known(s, m)
  {
    if Reachable(s, id) {
      var depth: nat :| Leads(s, id, depth);
      var i: nat :| InFold(s, m, i) && s.folds[m][i].id == id;
      var k :| ArchivedIn(s, k, id) && Leads(s, k, depth - 1);
      LeadsIsKnown(s, k, depth - 1);
    }
  }

  lemma LeadsIsKnown(s: Stored, id: string, depth: nat)
    requires Leads(s, id, depth)
    ensures Known(s, id)
  {
    if id !in s.entries {
      var m :| ArchivedIn(s, m, id) && Leads(s, m, depth - 1);
    }
  }

  /** Everything known is reachable exactly when the node of every fold is known. */
  lemma AllReachableIff(s: Stored, t: nat)
    requires Inv(s, t)
    ensures AllReachable(s) <==> NodesKnown(s)
  {
    hide Known, Reachable, LiveSound, FoldSound, OnePlace;
    if NodesKnown(s) {
      forall id | Known(s, id) ensures Reachable(s, id) {
        KnownLeads(s, t, id);
      }
    } else {
      var m :| m in s.folds && !Known(s, m);
      var id := OrphanedEntry(s, t, m);
    }
  }

  // ---- Over runs ----

  /** The operation takes a live macro node whose fold is still archived. */
  predicate Orphans(s: Memory, op: MemoryOp, config: RemConfig, m: string) {
    m in s.dir.folds && m in s.dir.entries && !op.Insert? && Ends(s, op, config, m)
  }

  lemma TakenIsUnknown(s: Stored, s': Stored, m: string)
    requires OnePlace(s) && m in s.entries && s'.folds == s.folds && m !in s'.entries
    ensures !Known(s', m)
  {
    SameArchive(s, s', m);
    forall k: string ensures !ArchivedIn(s, k, m) {
      LiveIsNotArchived(s, k, m);
    }
  }

  lemma UntakenIsKnown(s: Stored, s': Stored, m: string)
    requires Known(s, m) && s'.folds == s.folds && (m in s.entries ==> m in s'.entries)
    ensures Known(s', m)
  {
    SameArchive(s, s', m);
  }

  lemma PrunedIsUnknown(s: Stored, s': Stored, config: RemConfig, now: nat, m: string)
    requires OnePlace(s) && Cycled(s, s', config, now) && m in PrunedIds(s.entries, config)
    ensures !Known(s', m)
  {
    hide MacroId, Lists, Cluster, FoldedPaths, Cycled, FoldedIds;
    PrunedIsGone(s, s', config, now, m);
    forall k: string, i: nat | InFold(s', k, i) ensures s'.folds[k][i].id != m {
      FoldedIsEarlierOrFolded(s, s', config, now, k, i);
    }
  }

  /** An entry of a fold after the cycle was in that fold before, or is one that the cycle folded. */
  lemma FoldedIsEarlierOrFolded(s: Stored, s': Stored, config: RemConfig, now: nat, k: string, i: nat)
    requires Cycled(s, s', config, now) && InFold(s', k, i)
    ensures
      || (InFold(s, k, i) && s'.folds[k][i] == s.folds[k][i])
      || s'.folds[k][i].id in FoldedIds(s.entries, config.noiseImportance, FoldedPaths(s.entries, config))
  {
    hide MacroId, Lists, Cluster, FoldedPaths, Cycled, FoldedIds;
    var path := FoldAfter(s, s', config, now, k);
    if k !in s.folds { NewlyFolded(s, s', config, now, k, i); }
  }

  lemma PrunedIsGone(s: Stored, s': Stored, config: RemConfig, now: nat, m: string)
    requires Cycled(s, s', config, now) && m in PrunedIds(s.entries, config)
    ensures m in s.entries && m !in s'.entries
    ensures m !in FoldedIds(s.entries, config.noiseImportance, FoldedPaths(s.entries, config))
  {
    hide MacroId, FoldedPaths, FoldedMacros, FoldedArchive, FoldedIds;
    MacrosAreNew(s.entries, s.folds, config, now, FoldedPaths(s.entries, config));
    hide MacroIds;
  }

  /** After a cycle the node of a fold is known, unless it was live and pruned. */
  lemma CycleNodes(s: Stored, s': Stored, config: RemConfig, now: nat, m: string)
    requires OnePlace(s) && NodesKnown(s) && Cycled(s, s', config, now) && m in s'.folds
    ensures Known(s', m) <==> !(m in s.folds && m in PrunedIds(s.entries, config))
  {
    hide MacroId, Cycled, OnePlace, PrunedIds, Lists, Cluster, FoldedPaths;
    var path := FoldAfter(s, s', config, now, m);
    if m !in s.folds {
      assert NewNode(s, config, now, m);
      NodeAfter(s, s', config, now, m);
    } else if m in PrunedIds(s.entries, config) {
      PrunedIsUnknown(s, s', config, now, m);
    } else {
      CycleKnown(s, s', config, now, m);
    }
  }

  /** What one operation does to the node of a fold that is left after it. */
  lemma NodeStep(s: Memory, op: MemoryOp, s': Memory, config: RemConfig, t: nat, m: string)
    requires Inv(s.dir, t) && NodesKnown(s.dir) && StepTo(s, op, s', config) && Allowed(s.dir, op)
    requires Cycles(s, op, config) ==> Cycled(s.dir, s'.dir, config, op.now)
    requires m in s'.dir.folds
    ensures Known(s'.dir, m) <==> !Orphans(s, op, config, m)
  {
    hide RemCycle, FreshMacroIds, KeyedById, IsMacroId, Cycled, LiveSound, FoldSound, OnePlace, Unfolded, Known,
        PrunedIds;
    match op {
      case Unfold(k, clock) =>
        if k in s.dir.folds {
          UnfoldFolds(s.dir, k, clock);
          UnfoldKnown(s.dir, k, clock, m);
        } else {
          NoSuchFold(s.dir, k, clock);
        }
      case Poll(now) =>
        if Cycles(s, op, config) {
          EarlierOrPruned(s.dir, s'.dir, config, now, m);
          CycleNodes(s.dir, s'.dir, config, now, m);
        }
      case _ =>
        if m in s.dir.entries && m !in s'.dir.entries {
          TakenIsUnknown(s.dir, s'.dir, m);
        } else {
          UntakenIsKnown(s.dir, s'.dir, m);
        }
    }
  }

  lemma EarlierOrPruned(s: Stored, s': Stored, config: RemConfig, now: nat, m: string)
    ensures m in PrunedIds(s.entries, config) ==> m in s.entries
  {
    hide FoldedIds, FoldedPaths;
  }

  lemma FoldsThatStay(s: Memory, op: MemoryOp, s': Memory, config: RemConfig, m: string)
    requires StepTo(s, op, s', config) && (Cycles(s, op, config) ==> Cycled(s.dir, s'.dir, config, op.now))
    requires Orphans(s, op, config, m)
    ensures m in s'.dir.folds
  {
    hide RemCycle, FreshMacroIds, KeyedById, Cycled, Unfolded, PrunedIds;
    if Cycles(s, op, config) { EarlierFoldsStay(s.dir, s'.dir, config, op.now, m); }
  }

  /** An operation keeps every node known exactly when it orphans none. */
  lemma StepKeepsNodesIff(s: Memory, op: MemoryOp, s': Memory, config: RemConfig, t: nat)
    requires Inv(s.dir, t) && NodesKnown(s.dir) && StepTo(s, op, s', config) && Allowed(s.dir, op)
    requires Cycles(s, op, config) ==> Cycled(s.dir, s'.dir, config, op.now)
    ensures NodesKnown(s'.dir) <==> forall m :: !Orphans(s, op, config, m)
  {
    hide Inv, StepTo, Allowed, Cycles, Cycled, Orphans, Known;
    forall m | m in s'.dir.folds ensures Known(s'.dir, m) <==> !Orphans(s, op, config, m) {
      NodeStep(s, op, s', config, t, m);
    }
    forall m | Orphans(s, op, config, m) ensures m in s'.dir.folds {
      FoldsThatStay(s, op, s', config, m);
    }
  }

  lemma RunStepIff(states: seq<Memory>, ops: seq<MemoryOp>, config: RemConfig, i: nat)
    requires IsRun(states, ops, config) && config.overdueAfter >= 1 && i < |ops| && NodesKnown(states[i].dir)
    ensures NodesKnown(states[i + 1].dir) <==> forall m :: !Orphans(states[i], ops[i], config, m)
  {
    hide Inv, StepTo, Allowed, Cycles, Cycled, Orphans, NodesKnown;
    RunInv(states, ops, config, i);
    if Cycles(states[i], ops[i], config) { CyclesFindWhatTheyNeed(states, ops, config, i); }
    StepKeepsNodesIff(states[i], ops[i], states[i + 1], config, Since(states[i].last));
  }

  ghost predicate OrphansNothing(states: seq<Memory>, ops: seq<MemoryOp>, config: RemConfig, i: nat)
    requires i < |ops| < |states|
  {
    forall m :: !Orphans(states[i], ops[i], config, m)
  }

  lemma {:induction false} NodesStayKnown(states: seq<Memory>, ops: seq<MemoryOp>, config: RemConfig, n: nat)
    requires IsRun(states, ops, config) && config.overdueAfter >= 1 && n <= |ops|
    requires forall i :: 0 <= i < n ==> OrphansNothing(states, ops, config, i)
    ensures NodesKnown(states[n].dir)
  {
    hide StepTo, Allowed, Orphans, Known;
    if n == 0 {
    } else {
      NodesStayKnown(states, ops, config, n - 1);
      assert OrphansNothing(states, ops, config, n - 1);
      RunStepIff(states, ops, config, n - 1);
    }
  }

  /**
   Over any run, everything known is reachable at every point up to the `n`th exactly when none of the first `n`
   operations takes a live macro node whose fold is still archived.
   */
  lemma {:induction false} KnownIsReachableIff(states: seq<Memory>, ops: seq<MemoryOp>, config: RemConfig, n: nat)
    requires IsRun(states, ops, config) && config.overdueAfter >= 1 && n <= |ops|
    ensures (forall i :: 0 <= i <= n ==> AllReachable(states[i].dir))
       <==> forall i :: 0 <= i < n ==> OrphansNothing(states, ops, config, i)
  {
    hide StepTo, Allowed, AllReachable, NodesKnown, OrphansNothing;
    forall i | 0 <= i <= n ensures AllReachable(states[i].dir) <==> NodesKnown(states[i].dir) {
      ReachableNow(states, ops, config, i);
    }
    if forall i :: 0 <= i < n ==> OrphansNothing(states, ops, config, i) {
      forall i | 0 <= i <= n ensures NodesKnown(states[i].dir) {
        NodesStayKnown(states, ops, config, i);
      }
    }
    if forall i :: 0 <= i <= n ==> AllReachable(states[i].dir) {
      forall i | 0 <= i < n ensures OrphansNothing(states, ops, config, i) {
        OrphanedNone(states, ops, config, i);
      }
    }
  }

  lemma ReachableNow(states: seq<Memory>, ops: seq<MemoryOp>, config: RemConfig, i: nat)
    requires IsRun(states, ops, config) && config.overdueAfter >= 1 && i <= |ops|
    ensures i < |states| && (AllReachable(states[i].dir) <==> NodesKnown(states[i].dir))
  {
    hide AllReachable, NodesKnown, Inv, StepTo, Allowed;
    RunInv(states, ops, config, i);
    AllReachableIff(states[i].dir, Since(states[i].last));
  }

  lemma OrphanedNone(states: seq<Memory>, ops: seq<MemoryOp>, config: RemConfig, i: nat)
    requires IsRun(states, ops, config) && config.overdueAfter >= 1 && i < |ops|
    requires NodesKnown(states[i].dir) && NodesKnown(states[i + 1].dir)
    ensures OrphansNothing(states, ops, config, i)
  {
    hide NodesKnown, Orphans, StepTo, Allowed;
    RunStepIff(states, ops, config, i);
  }

  /** Removing a macro node right after the cycle that made it leaves an archived entry that nothing leads to. */
  lemma RemovedNodeOrphans(states: seq<Memory>, ops: seq<MemoryOp>, config: RemConfig, i: nat, path: string)
    returns (id: string)
    requires IsRun(states, ops, config) && config.overdueAfter >= 1 && i + 1 < |ops|
    requires Cycles(states[i], ops[i], config) && path in FoldedPaths(states[i].dir.entries, config)
    requires ops[i + 1] == Remove(MacroId(path, ops[i].now))
    ensures Known(states[i + 2].dir, id) && !Reachable(states[i + 2].dir, id)
  {
    hide MacroId, FoldedPaths, LiveSound, FoldsSound, Cycled, Known, Reachable, Allowed, RemCycle;
    var m := MacroId(path, ops[i].now);
    assert StepTo(states[i + 1], ops[i + 1], states[i + 2], config);
    CyclesFindWhatTheyNeed(states, ops, config, i);
    assert NewNode(states[i].dir, config, ops[i].now, m);
    NodeAfter(states[i].dir, states[i + 1].dir, config, ops[i].now, m);
    RunInv(states, ops, config, i + 1);
    RunInv(states, ops, config, i + 2);
    TakenIsUnknown(states[i + 1].dir, states[i + 2].dir, m);
    id := OrphanedEntry(states[i + 2].dir, Since(states[i + 2].last), m);
  }

  // ---- Without ageing no cycle orphans anything ----

  ghost predicate Endures(e: OduEntry, line: real) {
    IsMacroId(e.id) ==> e.importance >= line / 2.0
  }

  /** Every macro node, live or archived, outlives the residual prune. */
  ghost predicate Enduring(s: Stored, line: real) {
    && (forall id :: id in s.entries ==> Endures(s.entries[id], line))
    && forall m: string, i: nat :: InFold(s, m, i) ==> Endures(s.folds[m][i], line)
  }

  lemma UnfoldEndures(s: Stored, m: string, clock: nat, line: real)
    requires Enduring(s, line)
    ensures Enduring(Unfolded(s, m, clock), line)
  {
    hide IsMacroId, Restored;
    if m in s.folds {
      var s' := Unfolded(s, m, clock);
      UnfoldFolds(s, m, clock);
      forall id | id in s'.entries ensures Endures(s'.entries[id], line) {
        var i := UnfoldedAt(s, m, clock, id);
      }
      forall k: string, i: nat | InFold(s', k, i) ensures Endures(s'.folds[k][i], line) {
        assert InFold(s, k, i);
      }
    }
  }

  lemma CycleEndures(s: Stored, s': Stored, config: RemConfig, now: nat)
    requires Enduring(s, config.noiseImportance) && Cycled(s, s', config, now)
    ensures Enduring(s', config.noiseImportance)
  {
    hide IsMacroId, MacroId, Cycled, NewNode, Lists, Cluster, FoldedPaths, FoldedIds;
    forall id | id in s'.entries ensures Endures(s'.entries[id], config.noiseImportance) {
      LiveAfter(s, s', config, now, id);
      if id !in s.entries { NodeAfter(s, s', config, now, id); }
    }
    forall m: string, i: nat | InFold(s', m, i) ensures Endures(s'.folds[m][i], config.noiseImportance) {
      var path := FoldAfter(s, s', config, now, m);
      if m in s.folds { assert InFold(s, m, i); } else { NewlyFolded(s, s', config, now, m, i); }
    }
  }

  lemma SameFoldsEndure(s: Stored, s': Stored, line: real)
    requires Enduring(s, line) && s'.folds == s.folds
    requires forall id :: id in s'.entries ==> Endures(s'.entries[id], line)
    ensures Enduring(s', line)
  {
    hide Endures;
    forall m: string, i: nat | InFold(s', m, i) ensures Endures(s'.folds[m][i], line) {
      assert InFold(s, m, i);
    }
  }

  lemma EndureStep(s: Memory, op: MemoryOp, s': Memory, config: RemConfig)
    requires Enduring(s.dir, config.noiseImportance) && StepTo(s, op, s', config) && Allowed(s.dir, op) && !op.Age?
    requires Cycles(s, op, config) ==> Cycled(s.dir, s'.dir, config, op.now)
    ensures Enduring(s'.dir, config.noiseImportance)
  {
    hide RemCycle, FreshMacroIds, KeyedById, IsMacroId, Cycled, Unfolded, Archived;
    match op {
      case Unfold(m, clock) => UnfoldEndures(s.dir, m, clock, config.noiseImportance);
      case Poll(now) => if Cycles(s, op, config) { CycleEndures(s.dir, s'.dir, config, now); }
      case _ => SameFoldsEndure(s.dir, s'.dir, config.noiseImportance);
    }
  }

  lemma {:induction false} RunEndures(states: seq<Memory>, ops: seq<MemoryOp>, config: RemConfig, n: nat)
    requires IsRun(states, ops, config) && config.overdueAfter >= 1 && n <= |ops|
    requires forall i :: 0 <= i < n ==> !ops[i].Age?
    ensures Enduring(states[n].dir, config.noiseImportance)
  {
    hide StepTo, Allowed, Cycles;
    if n == 0 {
    } else {
      RunEndures(states, ops, config, n - 1);
      hide Enduring, Cycled;
      if Cycles(states[n - 1], ops[n - 1], config) { CyclesFindWhatTheyNeed(states, ops, config, n - 1); }
      EndureStep(states[n - 1], ops[n - 1], states[n], config);
    }
  }

  /**
   As long as nothing has aged, no poll takes a macro node with an archived fold: only removals and other
   prunes can.
   */
  lemma PollsOrphanNothing(states: seq<Memory>, ops: seq<MemoryOp>, config: RemConfig, n: nat)
    requires IsRun(states, ops, config) && config.overdueAfter >= 1 && n < |ops| && ops[n].Poll?
    requires forall i :: 0 <= i < n ==> !ops[i].Age?
    ensures OrphansNothing(states, ops, config, n)
  {
    hide StepTo, Allowed, Cycles, FoldedIds, FoldedPaths, IsMacroId;
    RunEndures(states, ops, config, n);
    RunInv(states, ops, config, n);
    forall m ensures !Orphans(states[n], ops[n], config, m) {
      if m in states[n].dir.folds {
        FoldKeyIsMacro(states[n].dir, Since(states[n].last), m);
        if m in states[n].dir.entries { assert Endures(states[n].dir.entries[m], config.noiseImportance); }
      }
    }
  }
}
