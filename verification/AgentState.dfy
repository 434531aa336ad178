/**
 The replicated public state of an agent (freenet-agent-state/src): last-writer-wins merge of full states
 and strictly versioned deltas. The state hash is a parameter; it covers everything but the signature.
 */
module AgentState {
  import opened Wrappers

  const U64_LIMIT := 0x1_0000_0000_0000_0000

  type u64 = x: int | 0 <= x < 0x1_0000_0000_0000_0000
  type u8 = x: int | 0 <= x < 0x100

  /** The signed fields of a state. */
  datatype Signable = Signable(
    agentNpub: string,
    displayName: string,
    bio: string,
    relayList: seq<string>,
    tier: u8,
    lastSeen: u64,
    declaredCapabilities: seq<string>,
    lifecycleStage: string,
    suiObjectId: Option<string>,
    bipon39Hint: Option<string>,
    version: u64,
    updatedAt: u64)

  datatype AgentPublicState = AgentPublicState(signed: Signable, signature: string)

  datatype StateDelta = StateDelta(
    agentNpub: string,
    displayName: Option<string>,
    bio: Option<string>,
    relayList: Option<seq<string>>,
    tier: Option<u8>,
    lastSeen: Option<u64>,
    declaredCapabilities: Option<seq<string>>,
    lifecycleStage: Option<string>,
    suiObjectId: Option<Option<string>>,
    bipon39Hint: Option<Option<string>>,
    newVersion: u64,
    updatedAt: u64,
    signature: string)

  datatype StateSummary = StateSummary(
    agentNpub: string,
    version: u64,
    stateHash: string,
    lastSeen: u64,
    lifecycleStage: string)

  datatype ContractError = NpubMismatch | VersionMismatch(expected: u64, got: u64)

  /** The hexadecimal state hash of the signed fields. */
  type StateHash = Signable -> string

  // ---- Deltas ----

  /** Unchecked 64-bit increment. */
  function NextVersion(version: u64): u64 {
    (version + 1) % U64_LIMIT
  }

  function ValidateDelta(current: AgentPublicState, delta: StateDelta): Result<(), ContractError> {
    if delta.agentNpub != current.signed.agentNpub then Err(NpubMismatch)
    else if delta.newVersion != NextVersion(current.signed.version) then
      Err(VersionMismatch(NextVersion(current.signed.version), delta.newVersion))
    else Ok(())
  }

  function Patched(base: Signable, delta: StateDelta): Signable {
    Signable(
      base.agentNpub,
      delta.displayName.Or(base.displayName),
      delta.bio.Or(base.bio),
      delta.relayList.Or(base.relayList),
      delta.tier.Or(base.tier),
      delta.lastSeen.Or(base.lastSeen),
      delta.declaredCapabilities.Or(base.declaredCapabilities),
      delta.lifecycleStage.Or(base.lifecycleStage),
      delta.suiObjectId.Or(base.suiObjectId),
      delta.bipon39Hint.Or(base.bipon39Hint),
      delta.newVersion,
      delta.updatedAt)
  }

  /** What applying a delta yields: refused exactly when it does not validate. */
  function DeltaResult(state: AgentPublicState, delta: StateDelta): Result<AgentPublicState, ContractError> {
    var valid := ValidateDelta(state, delta);
    if valid.Err? then Err(valid.error) else Ok(AgentPublicState(Patched(state.signed, delta), delta.signature))
  }

  method ApplyDelta(state: AgentPublicState, delta: StateDelta)
    returns (result: Result<AgentPublicState, ContractError>)
    ensures result == DeltaResult(state, delta)
  {
    if delta.agentNpub != state.signed.agentNpub {
      return Err(NpubMismatch);
    }
    if delta.newVersion != NextVersion(state.signed.version) {
      return Err(VersionMismatch(NextVersion(state.signed.version), delta.newVersion));
    }
    var next := state.signed;
    next := next.(displayName := delta.displayName.Or(next.displayName));
    next := next.(bio := delta.bio.Or(next.bio));
    next := next.(relayList := delta.relayList.Or(next.relayList));
    next := next.(tier := delta.tier.Or(next.tier));
    next := next.(lastSeen := delta.lastSeen.Or(next.lastSeen));
    next := next.(declaredCapabilities := delta.declaredCapabilities.Or(next.declaredCapabilities));
    next := next.(lifecycleStage := delta.lifecycleStage.Or(next.lifecycleStage));
    next := next.(suiObjectId := delta.suiObjectId.Or(next.suiObjectId));
    next := next.(bipon39Hint := delta.bipon39Hint.Or(next.bipon39Hint));
    next := next.(version := delta.newVersion);
    next := next.(updatedAt := delta.updatedAt);
    result := Ok(AgentPublicState(next, delta.signature));
  }

  // ---- Merging ----

  /** Lexicographic comparison of strings. */
  predicate LexLe(s: string, t: string) {
    |s| == 0 || (|t| > 0 && (s[0] < t[0] || (s[0] == t[0] && LexLe(s[1..], t[1..]))))
  }

  function Merge(a: AgentPublicState, b: AgentPublicState, hash: StateHash): AgentPublicState {
    if a.signed.version > b.signed.version then a
    else if b.signed.version > a.signed.version then b
    else if a.signed.updatedAt > b.signed.updatedAt then a
    else if b.signed.updatedAt > a.signed.updatedAt then b
    else if LexLe(hash(a.signed), hash(b.signed)) then a
    else b
  }

  function Summarize(state: AgentPublicState, hash: StateHash): StateSummary {
    StateSummary(state.signed.agentNpub, state.signed.version, hash(state.signed),
                 state.signed.lastSeen, state.signed.lifecycleStage)
  }

  // ---- The update fold ----

  datatype Update = DeltaUpdate(delta: StateDelta) | StateUpdate(state: AgentPublicState) | OtherUpdate

  function Step(state: AgentPublicState, update: Update, hash: StateHash): Result<AgentPublicState, ContractError> {
    match update
    case DeltaUpdate(delta) => DeltaResult(state, delta)
    case StateUpdate(incoming) => Ok(Merge(state, incoming, hash))
    case OtherUpdate => Ok(state)
  }

  /** The state after the first `n` updates, or the first refusal. */
  function Updated(state: AgentPublicState, data: seq<Update>, n: nat,
                   hash: StateHash): Result<AgentPublicState, ContractError>
    requires n <= |data|
  {
    if n == 0 then Ok(state)
    else
      var before := Updated(state, data, n - 1, hash);
      if before.Err? then before else Step(before.value, data[n - 1], hash)
  }

  method UpdateState(state: AgentPublicState, data: seq<Update>, hash: StateHash)
    returns (result: Result<AgentPublicState, ContractError>)
    ensures result == Updated(state, data, |data|, hash)
  {
    var current := state;
    for i := 0 to |data|
      invariant Updated(state, data, i, hash) == Ok(current)
    {
      match data[i] {
        case DeltaUpdate(delta) =>
          var applied := ApplyDelta(current, delta);
          if applied.Err? {
            RefusalStays(state, data, i + 1, |data|, hash);
            return applied;
          }
          current := applied.value;
        case StateUpdate(incoming) =>
          current := Merge(current, incoming, hash);
        case OtherUpdate =>
      }
    }
    result := Ok(current);
  }

  lemma {:induction false} RefusalStays(state: AgentPublicState, data: seq<Update>, m: nat, n: nat, hash: StateHash)
    requires m <= n <= |data| && Updated(state, data, m, hash).Err?
    ensures Updated(state, data, n, hash) == Updated(state, data, m, hash)
  {
    if m < n { RefusalStays(state, data, m, n - 1, hash); }
  }

  // ---- The merge order ----

  /** `a` ranks at or below `b`: lower version, then earlier update, then higher hash. */
  predicate AtMost(a: AgentPublicState, b: AgentPublicState, hash: StateHash) {
    || a.signed.version < b.signed.version
    || (a.signed.version == b.signed.version
        && (|| a.signed.updatedAt < b.signed.updatedAt
            || (a.signed.updatedAt == b.signed.updatedAt && LexLe(hash(b.signed), hash(a.signed)))))
  }

  predicate Below(a: AgentPublicState, b: AgentPublicState, hash: StateHash) {
    AtMost(a, b, hash) && !AtMost(b, a, hash)
  }

  /** Equal in everything the merge looks at. */
  predicate SameRank(a: AgentPublicState, b: AgentPublicState, hash: StateHash) {
    && a.signed.version == b.signed.version && a.signed.updatedAt == b.signed.updatedAt
    && hash(a.signed) == hash(b.signed)
  }

  lemma {:induction false} LexTotal(s: string, t: string)
    ensures LexLe(s, t) || LexLe(t, s)
    ensures LexLe(s, s)
  {
    if |s| > 0 && |t| > 0 { LexTotal(s[1..], t[1..]); }
    if |s| > 0 { LexTotal(s[1..], s[1..]); }
  }

  lemma {:induction false} LexAntisymmetric(s: string, t: string)
    requires LexLe(s, t) && LexLe(t, s)
    ensures s == t
  {
    if |s| > 0 {
      LexAntisymmetric(s[1..], t[1..]);
      assert s == [s[0]] + s[1..] && t == [t[0]] + t[1..];
    }
  }

  lemma {:induction false} LexTransitive(s: string, t: string, u: string)
    requires LexLe(s, t) && LexLe(t, u)
    ensures LexLe(s, u)
  {
    if |s| > 0 && s[0] == t[0] == u[0] { LexTransitive(s[1..], t[1..], u[1..]); }
  }

  lemma AtMostTransitive(a: AgentPublicState, b: AgentPublicState, c: AgentPublicState, hash: StateHash)
    requires AtMost(a, b, hash) && AtMost(b, c, hash)
    ensures AtMost(a, c, hash)
  {
    hide LexLe;
    if a.signed.version == c.signed.version && a.signed.updatedAt == c.signed.updatedAt {
      LexTransitive(hash(c.signed), hash(b.signed), hash(a.signed));
    }
  }

  /** Only states that agree on version, time and hash rank level. */
  lemma LevelIsSameRank(a: AgentPublicState, b: AgentPublicState, hash: StateHash)
    ensures AtMost(a, b, hash) || AtMost(b, a, hash)
    ensures AtMost(a, b, hash) && AtMost(b, a, hash) <==> SameRank(a, b, hash)
  {
    LexTotal(hash(a.signed), hash(b.signed));
    if LexLe(hash(a.signed), hash(b.signed)) && LexLe(hash(b.signed), hash(a.signed)) {
      LexAntisymmetric(hash(a.signed), hash(b.signed));
    }
  }

  /** The merge keeps the higher-ranked state, and the left one when they rank level. */
  lemma MergeIsMaximum(a: AgentPublicState, b: AgentPublicState, hash: StateHash)
    ensures Merge(a, b, hash) == if AtMost(b, a, hash) then a else b
    ensures AtMost(a, Merge(a, b, hash), hash) && AtMost(b, Merge(a, b, hash), hash)
  {
    hide LexLe;
    LevelIsSameRank(a, b, hash);
    LevelIsSameRank(a, a, hash);
    LevelIsSameRank(b, b, hash);
  }

  /** Grouping never matters, not even for the signature. */
  lemma MergeIsAssociative(a: AgentPublicState, b: AgentPublicState, c: AgentPublicState, hash: StateHash)
    ensures Merge(Merge(a, b, hash), c, hash) == Merge(a, Merge(b, c, hash), hash)
  {
    hide *;
    MergeIsMaximum(a, b, hash);
    MergeIsMaximum(b, c, hash);
    MergeIsMaximum(Merge(a, b, hash), c, hash);
    MergeIsMaximum(a, Merge(b, c, hash), hash);
    LevelIsSameRank(a, b, hash);
    LevelIsSameRank(b, c, hash);
    if AtMost(c, b, hash) && AtMost(b, a, hash) { AtMostTransitive(c, b, a, hash); }
    if !AtMost(c, b, hash) && !AtMost(b, a, hash) && AtMost(c, a, hash) { AtMostTransitive(c, a, b, hash); }
  }

  /**
   Order matters exactly for distinct states that rank level, which can differ only in what the hash does not tell
   apart.
   */
  lemma MergeCommutesIff(a: AgentPublicState, b: AgentPublicState, hash: StateHash)
    ensures Merge(a, b, hash) == Merge(b, a, hash) <==> (SameRank(a, b, hash) ==> a == b)
  {
    hide *;
    MergeIsMaximum(a, b, hash);
    MergeIsMaximum(b, a, hash);
    LevelIsSameRank(a, b, hash);
  }

  /** Two signatures over the same content: each replica keeps the one it saw first. */
  lemma SignaturesNeedNotConverge(signed: Signable, s: string, t: string, hash: StateHash)
    requires s != t
    ensures
      var a, b := AgentPublicState(signed, s), AgentPublicState(signed, t);
      Merge(a, b, hash) == a && Merge(b, a, hash) == b && a != b
  {
    LexTotal(hash(signed), hash(signed));
  }

  // ---- Convergence ----

  /** A replica that started from `start` and merged the first `n` of `states`. */
  function Merged(start: AgentPublicState, states: seq<AgentPublicState>, n: nat, hash: StateHash): AgentPublicState
    requires n <= |states|
  {
    if n == 0 then start else Merge(Merged(start, states, n - 1, hash), states[n - 1], hash)
  }

  lemma {:induction false} MergedIsTop(start: AgentPublicState, states: seq<AgentPublicState>, n: nat, hash: StateHash)
    requires n <= |states|
    ensures Merged(start, states, n, hash) in [start] + states
    ensures AtMost(start, Merged(start, states, n, hash), hash)
    ensures forall i :: 0 <= i < n ==> AtMost(states[i], Merged(start, states, n, hash), hash)
  {
    hide AtMost, Merge;
    if n == 0 {
      LevelIsSameRank(start, start, hash);
    } else {
      MergedIsTop(start, states, n - 1, hash);
      var before, after := Merged(start, states, n - 1, hash), Merged(start, states, n, hash);
      MergeIsMaximum(before, states[n - 1], hash);
      AtMostTransitive(start, before, after, hash);
      forall i | 0 <= i < n - 1 ensures AtMost(states[i], after, hash) {
        AtMostTransitive(states[i], before, after, hash);
      }
    }
  }

  ghost predicate SameStates(a: seq<AgentPublicState>, b: seq<AgentPublicState>) {
    forall s :: s in a <==> s in b
  }

  ghost predicate TellsApart(hash: StateHash, states: seq<AgentPublicState>) {
    forall s, t :: s in states && t in states && hash(s.signed) == hash(t.signed) ==> s.signed == t.signed
  }

  /**
   Replicas that have seen the same states, in any order and with any repeats, agree on version, time and hash;
   and on every signed field and the summary they publish, when the hash tells those states apart.
   */
  lemma ReplicasConverge(a: AgentPublicState, seenByA: seq<AgentPublicState>,
                         b: AgentPublicState, seenByB: seq<AgentPublicState>, hash: StateHash)
    requires SameStates([a] + seenByA, [b] + seenByB)
    ensures
      var x, y := Merged(a, seenByA, |seenByA|, hash), Merged(b, seenByB, |seenByB|, hash);
      && SameRank(x, y, hash)
      && (TellsApart(hash, [a] + seenByA) ==> x.signed == y.signed && Summarize(x, hash) == Summarize(y, hash))
  {
    hide AtMost, Merged, SameRank;
    var x, y := Merged(a, seenByA, |seenByA|, hash), Merged(b, seenByB, |seenByB|, hash);
    MergedIsTop(a, seenByA, |seenByA|, hash);
    MergedIsTop(b, seenByB, |seenByB|, hash);
    TopOfAll(a, seenByA, x, y, hash);
    TopOfAll(b, seenByB, y, x, hash);
    LevelIsSameRank(x, y, hash);
    SameRankSameHash(x, y, hash);
  }

  lemma TopOfAll(a: AgentPublicState, seen: seq<AgentPublicState>, top: AgentPublicState,
                 other: AgentPublicState, hash: StateHash)
    requires AtMost(a, top, hash) && (forall i :: 0 <= i < |seen| ==> AtMost(seen[i], top, hash))
    requires other in [a] + seen
    ensures AtMost(other, top, hash)
  {
    hide AtMost;
  }

  lemma SameRankSameHash(x: AgentPublicState, y: AgentPublicState, hash: StateHash)
    requires SameRank(x, y, hash)
    ensures hash(x.signed) == hash(y.signed)
  {
  }

  // ---- Deltas and the merge order ----

  /** The delta that names every field of `target`. */
  function FullDelta(target: AgentPublicState): StateDelta {
    var s := target.signed;
    StateDelta(s.agentNpub, Some(s.displayName), Some(s.bio), Some(s.relayList), Some(s.tier), Some(s.lastSeen),
               Some(s.declaredCapabilities), Some(s.lifecycleStage), Some(s.suiObjectId), Some(s.bipon39Hint),
               s.version, s.updatedAt, target.signature)
  }

  /** Deltas reach every state of the same agent at the next version, and none that is not. */
  lemma FullDeltaReaches(state: AgentPublicState, target: AgentPublicState)
    ensures DeltaResult(state, FullDelta(target)) == Ok(target)
       <==> (&& target.signed.agentNpub == state.signed.agentNpub
             && target.signed.version == NextVersion(state.signed.version))
  {
  }

  /** A delta that names nothing changes nothing but the version, the time and the signature. */
  lemma SilentDeltaKeeps(state: AgentPublicState, delta: StateDelta)
    requires delta == StateDelta(state.signed.agentNpub, None, None, None, None, None, None, None, None, None,
                                 NextVersion(state.signed.version), delta.updatedAt, delta.signature)
    ensures DeltaResult(state, delta) == Ok(AgentPublicState(
      state.signed.(version := NextVersion(state.signed.version), updatedAt := delta.updatedAt), delta.signature))
  {
  }

  /** An accepted delta moves strictly up the merge order, unless its version counter has wrapped to zero. */
  lemma DeltaRisesUnlessWrapped(state: AgentPublicState, delta: StateDelta, hash: StateHash)
    requires DeltaResult(state, delta).Ok?
    ensures
      var next := DeltaResult(state, delta).value;
      if delta.newVersion != 0 then Below(state, next, hash) else Below(next, state, hash)
    ensures delta.newVersion == 0 <==> state.signed.version == U64_LIMIT - 1
  {
    hide LexLe;
  }

  /** Update `n` did not move the state down, if it was reached and accepted. */
  ghost predicate RisesAt(state: AgentPublicState, data: seq<Update>, n: nat, hash: StateHash)
    requires n < |data|
  {
    Updated(state, data, n + 1, hash).Ok? ==>
      Updated(state, data, n, hash).Ok?
      && AtMost(Updated(state, data, n, hash).value, Updated(state, data, n + 1, hash).value, hash)
  }

  lemma StepRisesIff(state: AgentPublicState, update: Update, hash: StateHash)
    requires Step(state, update, hash).Ok?
    ensures AtMost(state, Step(state, update, hash).value, hash)
        <==> (update.DeltaUpdate? ==> update.delta.newVersion != 0)
  {
    match update
    case DeltaUpdate(delta) =>
      hide AtMost, DeltaResult;
      DeltaRisesUnlessWrapped(state, delta, hash);
    case StateUpdate(incoming) =>
      hide AtMost, Merge;
      MergeIsMaximum(state, incoming, hash);
    case OtherUpdate =>
      hide AtMost;
      LevelIsSameRank(state, state, hash);
  }

  /**
   A successful batch of deltas and states never steps down the merge order, exactly when no delta wraps the
   counter.
   */
  lemma {:induction false} BatchNeverGoesBackIff(state: AgentPublicState, data: seq<Update>, hash: StateHash)
    requires Updated(state, data, |data|, hash).Ok?
    ensures (forall n :: 0 <= n < |data| ==> RisesAt(state, data, n, hash))
       <==> forall n :: 0 <= n < |data| ==> data[n].DeltaUpdate? ==> data[n].delta.newVersion != 0
  {
    hide RisesAt, Updated;
    forall n | 0 <= n < |data|
      ensures RisesAt(state, data, n, hash) <==> (data[n].DeltaUpdate? ==> data[n].delta.newVersion != 0)
    {
      RisesAtIff(state, data, n, hash);
    }
  }

  lemma RisesAtIff(state: AgentPublicState, data: seq<Update>, n: nat, hash: StateHash)
    requires n < |data| && Updated(state, data, |data|, hash).Ok?
    ensures RisesAt(state, data, n, hash) <==> (data[n].DeltaUpdate? ==> data[n].delta.newVersion != 0)
  {
    hide AtMost, Step;
    AcceptedThroughout(state, data, n, |data|, hash);
    AcceptedThroughout(state, data, n + 1, |data|, hash);
    StepRisesIff(Updated(state, data, n, hash).value, data[n], hash);
  }

  lemma AcceptedThroughout(state: AgentPublicState, data: seq<Update>, m: nat, n: nat, hash: StateHash)
    requires m <= n <= |data| && Updated(state, data, n, hash).Ok?
    ensures Updated(state, data, m, hash).Ok?
  {
    if Updated(state, data, m, hash).Err? { RefusalStays(state, data, m, n, hash); }
  }

  /** Hence the state it ends with ranks no lower than the one it began with. */
  lemma {:induction false} BatchRises(state: AgentPublicState, data: seq<Update>, n: nat, hash: StateHash)
    requires n <= |data| && Updated(state, data, n, hash).Ok?
    requires forall i :: 0 <= i < n && data[i].DeltaUpdate? ==> data[i].delta.newVersion != 0
    ensures AtMost(state, Updated(state, data, n, hash).value, hash)
  {
    hide AtMost, Step;
    if n == 0 {
      LevelIsSameRank(state, state, hash);
    } else {
      AcceptedThroughout(state, data, n - 1, n, hash);
      BatchRises(state, data, n - 1, hash);
      StepRisesIff(Updated(state, data, n - 1, hash).value, data[n - 1], hash);
      AtMostTransitive(state, Updated(state, data, n - 1, hash).value, Updated(state, data, n, hash).value, hash);
    }
  }

  /** Two batches in a row do what one longer batch does, refusals included. */
  lemma {:induction false} BatchesCompose(state: AgentPublicState, first: seq<Update>, second: seq<Update>,
                                          n: nat, hash: StateHash)
    requires n <= |second|
    ensures
      var mid := Updated(state, first, |first|, hash);
      Updated(state, first + second, |first| + n, hash) == if mid.Err? then mid else Updated(mid.value, second, n, hash)
  {
    hide Step;
    if n == 0 {
      SamePrefix(state, first, first + second, |first|, hash);
    } else {
      BatchesCompose(state, first, second, n - 1, hash);
    }
  }

  lemma {:induction false} SamePrefix(state: AgentPublicState, a: seq<Update>, b: seq<Update>, n: nat, hash: StateHash)
    requires n <= |a| && n <= |b| && forall i :: 0 <= i < n ==> a[i] == b[i]
    ensures Updated(state, a, n, hash) == Updated(state, b, n, hash)
  {
    hide Step;
    if n == 0 {
    } else {
      SamePrefix(state, a, b, n - 1, hash);
    }
  }

  // ---- Ownership ----

  /** Deltas cannot change the agent; a merge can only when a full state names another one. */
  lemma {:induction false} OwnerIsKept(state: AgentPublicState, data: seq<Update>, n: nat, hash: StateHash)
    requires n <= |data| && Updated(state, data, n, hash).Ok?
    requires forall i :: 0 <= i < n && data[i].StateUpdate? ==> data[i].state.signed.agentNpub == state.signed.agentNpub
    ensures Updated(state, data, n, hash).value.signed.agentNpub == state.signed.agentNpub
  {
    if n == 0 {
    } else {
      OwnerIsKept(state, data, n - 1, hash);
    }
  }

  /** The merge itself does not compare owners: a foreign state wins exactly when it ranks higher. */
  lemma MergeIgnoresOwner(state: AgentPublicState, foreign: AgentPublicState, hash: StateHash)
    requires foreign.signed.agentNpub != state.signed.agentNpub
    ensures Merge(state, foreign, hash).signed.agentNpub != state.signed.agentNpub <==> !AtMost(foreign, state, hash)
  {
    hide *;
    MergeIsMaximum(state, foreign, hash);
  }
}
