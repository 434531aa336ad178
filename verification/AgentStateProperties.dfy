/**
 The replicated state told in its own fields (freenet-agent-state/src): which state a merge keeps, and where each field
 of a patched state comes from.
 */
module AgentStateProperties {
  import opened AgentState
  import opened Wrappers

  // ---- The winner of a merge ----

  /** Dictionary order: equal up to some place, and there `s` ends or has the smaller character. */
  ghost predicate DictionaryLe(s: string, t: string) {
    exists k :: 0 <= k <= |s| && k <= |t| && s[..k] == t[..k] && (k == |s| || (k < |t| && s[k] < t[k]))
  }

  lemma {:induction false} LexIsDictionaryOrder(s: string, t: string)
    ensures LexLe(s, t) <==> DictionaryLe(s, t)
  {
    if s == [] {
      assert s[..0] == t[..0];
    } else if t != [] && s[0] == t[0] {
      LexIsDictionaryOrder(s[1..], t[1..]);
      if DictionaryLe(s[1..], t[1..]) {
        var k :| 0 <= k <= |s[1..]| && k <= |t[1..]| && s[1..][..k] == t[1..][..k]
              && (k == |s[1..]| || (k < |t[1..]| && s[1..][k] < t[1..][k]));
        assert s[..k + 1] == [s[0]] + s[1..][..k] && t[..k + 1] == [t[0]] + t[1..][..k];
      }
      if DictionaryLe(s, t) {
        var k :| 0 <= k <= |s| && k <= |t| && s[..k] == t[..k] && (k == |s| || (k < |t| && s[k] < t[k]));
        assert s[1..][..k - 1] == s[..k][1..] && t[1..][..k - 1] == t[..k][1..];
      }
    } else if t != [] {
      assert s[..0] == t[..0];
    }
  }

  /** `a` is newer than `b`, or as new with a hash no later in the dictionary. */
  ghost predicate Beats(a: AgentPublicState, b: AgentPublicState, hash: StateHash) {
    && a.signed.version >= b.signed.version
    && (a.signed.version == b.signed.version ==> a.signed.updatedAt >= b.signed.updatedAt)
    && (a.signed.version == b.signed.version && a.signed.updatedAt == b.signed.updatedAt ==>
          DictionaryLe(hash(a.signed), hash(b.signed)))
  }

  lemma AtMostIsBeaten(a: AgentPublicState, b: AgentPublicState, hash: StateHash)
    ensures AtMost(a, b, hash) <==> Beats(b, a, hash)
  {
    LexIsDictionaryOrder(hash(b.signed), hash(a.signed));
    hide LexLe, DictionaryLe;
  }

  /** However many states a replica merges, it keeps one of them, which beats them all. */
  lemma MergedBeatsAll(start: AgentPublicState, states: seq<AgentPublicState>, n: nat, hash: StateHash)
    requires n <= |states|
    ensures
      var kept := Merged(start, states, n, hash);
      && kept in [start] + states && Beats(kept, start, hash)
      && forall i :: 0 <= i < n ==> Beats(kept, states[i], hash)
  {
    hide AtMost, Merged, Beats;
    var kept := Merged(start, states, n, hash);
    MergedIsTop(start, states, n, hash);
    AtMostIsBeaten(start, kept, hash);
    forall i | 0 <= i < n ensures Beats(kept, states[i], hash) {
      AtMostIsBeaten(states[i], kept, hash);
    }
  }

  // ---- Where a field comes from ----

  /** A delta that names the field sets it, and any other leaves it. */
  ghost predicate PatchesField<T(!new)>(field: Signable -> T, named: StateDelta -> Option<T>) {
    forall base, delta ::
      field(Patched(base, delta)) == if named(delta).Some? then named(delta).value else field(base)
  }

  /** Each field answers to its own part of the delta, whatever else the delta names. */
  lemma EveryFieldIsPatched()
    ensures PatchesField((s: Signable) => s.displayName, (d: StateDelta) => d.displayName)
    ensures PatchesField((s: Signable) => s.bio, (d: StateDelta) => d.bio)
    ensures PatchesField((s: Signable) => s.relayList, (d: StateDelta) => d.relayList)
    ensures PatchesField((s: Signable) => s.tier, (d: StateDelta) => d.tier)
    ensures PatchesField((s: Signable) => s.lastSeen, (d: StateDelta) => d.lastSeen)
    ensures PatchesField((s: Signable) => s.declaredCapabilities, (d: StateDelta) => d.declaredCapabilities)
    ensures PatchesField((s: Signable) => s.lifecycleStage, (d: StateDelta) => d.lifecycleStage)
    ensures PatchesField((s: Signable) => s.suiObjectId, (d: StateDelta) => d.suiObjectId)
    ensures PatchesField((s: Signable) => s.bipon39Hint, (d: StateDelta) => d.bipon39Hint)
  {
  }

  /** What the last of the first `n` updates that names a field says of it. */
  function LastNamed<T>(data: seq<Update>, n: nat, named: StateDelta -> Option<T>): Option<T>
    requires n <= |data|
  {
    if n == 0 then None
    else if data[n - 1].DeltaUpdate? && named(data[n - 1].delta).Some? then named(data[n - 1].delta)
    else LastNamed(data, n - 1, named)
  }

  /** After an accepted batch of deltas each field is as the last delta to name it has it, or as it was. */
  lemma {:induction false} LastNamedWins<T(!new)>(state: AgentPublicState, data: seq<Update>, n: nat, hash: StateHash,
                                                  field: Signable -> T, named: StateDelta -> Option<T>)
    requires PatchesField(field, named)
    requires n <= |data| && Updated(state, data, n, hash).Ok? && forall i :: 0 <= i < n ==> !data[i].StateUpdate?
    ensures
      var last := LastNamed(data, n, named);
      field(Updated(state, data, n, hash).value.signed) == if last.Some? then last.value else field(state.signed)
  {
    hide Patched;
    if n == 0 {
    } else {
      LastNamedWins(state, data, n - 1, hash, field, named);
    }
  }

  function DeltaBatch(deltas: seq<StateDelta>): seq<Update> {
    seq(|deltas|, i requires 0 <= i < |deltas| => DeltaUpdate(deltas[i]))
  }

  /** The delta names the agent, and counts `i` versions on from one after the state's. */
  predicate Continues(state: AgentPublicState, delta: StateDelta, i: nat) {
    && delta.agentNpub == state.signed.agentNpub
    && delta.newVersion == (state.signed.version + 1 + i) % U64_LIMIT
  }

  lemma DeltaStep(state: AgentPublicState, delta: StateDelta)
    ensures DeltaResult(state, delta).Ok?
       <==> delta.agentNpub == state.signed.agentNpub && delta.newVersion == (state.signed.version + 1) % U64_LIMIT
    ensures DeltaResult(state, delta).Ok? ==>
      var next := DeltaResult(state, delta).value;
      && next.signed.agentNpub == state.signed.agentNpub && next.signed.version == delta.newVersion
      && next.signed.updatedAt == delta.updatedAt && next.signature == delta.signature
    ensures DeltaResult(state, delta).Err? ==>
      DeltaResult(state, delta).error
      == if delta.agentNpub != state.signed.agentNpub then NpubMismatch
         else VersionMismatch((state.signed.version + 1) % U64_LIMIT, delta.newVersion)
  {
  }

  lemma CountedOn(version: nat, i: nat)
    ensures ((version + i) % U64_LIMIT + 1) % U64_LIMIT == (version + 1 + i) % U64_LIMIT
  {
  }

  /** A batch of deltas is accepted exactly when every one names the agent and the versions count up by one. */
  lemma {:induction false} DeltasAreAcceptedIff(state: AgentPublicState, deltas: seq<StateDelta>, n: nat,
                                                hash: StateHash)
    requires n <= |deltas|
    ensures
      var result := Updated(state, DeltaBatch(deltas), n, hash);
      && (result.Ok? <==> forall i :: 0 <= i < n ==> Continues(state, deltas[i], i))
      && (result.Ok? ==>
            && result.value.signed.agentNpub == state.signed.agentNpub
            && result.value.signed.version == (state.signed.version + n) % U64_LIMIT)
      && (result.Ok? && n > 0 ==>
            && result.value.signed.updatedAt == deltas[n - 1].updatedAt
            && result.value.signature == deltas[n - 1].signature)
  {
    hide DeltaResult;
    if n == 0 {
    } else {
      DeltasAreAcceptedIff(state, deltas, n - 1, hash);
      var before := Updated(state, DeltaBatch(deltas), n - 1, hash);
      CountedOn(state.signed.version, n - 1);
      if before.Ok? { DeltaStep(before.value, deltas[n - 1]); }
    }
  }

  /** A refused batch reports the first delta that does not continue it: the wrong agent before the wrong version. */
  lemma {:induction false} FirstRefusalIsReported(state: AgentPublicState, deltas: seq<StateDelta>, n: nat,
                                                  hash: StateHash)
    returns (i: nat)
    requires n <= |deltas| && Updated(state, DeltaBatch(deltas), n, hash).Err?
    ensures i < n && !Continues(state, deltas[i], i) && forall j :: 0 <= j < i ==> Continues(state, deltas[j], j)
    ensures Updated(state, DeltaBatch(deltas), n, hash).error
         == if deltas[i].agentNpub != state.signed.agentNpub then NpubMismatch
            else VersionMismatch((state.signed.version + 1 + i) % U64_LIMIT, deltas[i].newVersion)
  {
    hide DeltaResult;
    var before := Updated(state, DeltaBatch(deltas), n - 1, hash);
    DeltasAreAcceptedIff(state, deltas, n - 1, hash);
    if before.Err? {
      i := FirstRefusalIsReported(state, deltas, n - 1, hash);
    } else {
      i := n - 1;
      CountedOn(state.signed.version, n - 1);
      DeltaStep(before.value, deltas[n - 1]);
    }
  }
}
