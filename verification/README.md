# Formal model of the Omokoda cores

This project models the stateful and arithmetic cores of the repository and proves what they keep over
every input and every run: goal genesis, the event fan-out hub, the BIPON39 word codec and its wordlist tree,
the dream engine's dimension, schedule and lossless fold, the replicated agent state, the tool runner's result
cache, the token ledger with its wallet and decay rules, context compaction, the event loop, and the epoch payouts.

Code that works in place is a class or a method with loops, proved equal to a specification function or predicate;
the properties are lemmas about those specifications. Runs are sequences of operations, and a claim about runs holds
after every prefix of every such sequence. `StableSort`, `Arithmetic`, `Bits`, `Collections` and `Wrappers` are shared.

Three idioms recur. Hash functions, digests, logarithms and locale order are parameters, constrained only where a
lemma says so. Rust and JavaScript floating-point numbers are exact reals or integers. Clocks and random identifiers
are parameters or left out.

## Where code and documentation differ

The model follows the code in each case.

- The survival goal is documented as always present (omokoda-core/src/goal_genesis.rs:169, 179). It is, given
  `max_goals >= 1` and balances of at most 1.1, below zero included; for any balance above 1.1 some snapshot derives a
  set of one goal that is not it. The only caller clamps the balance to [0, 1] (omokoda-core/src/interpreter.rs:5023), so the program
  itself stays on the safe side.
- A REM cycle is documented as overdue when more than the limit has passed (omokoda-core/src/dream.rs:384-385); the
  code also fires at exactly the limit, as the comment on the limit itself says (omokoda-core/src/dream.rs:64-67).
- The merge is documented to converge for all relays (freenet-agent-state/src/merge.rs:9-10). It does up to the
  signature, which the hash does not cover. Versions are 64-bit and wrap in a release build, so one accepted delta in
  the range moves down the merge order.
- The wallet's daily decay throws for a balance idle long past a hundred days, and keeps throwing.
- The decay engine is documented to run once per day per agent (aether-economy/decay.js:4). It charges each day at most
  once, but for a wallet more than a day older than the epoch that is called at time zero, which it takes for no call.
- The token ledger's transfer accepts negative amounts, and `lock` does too.
- The event loop throws the event at hand away, unread, when it turns to compaction or switches models by itself, and
  then takes no user input until a tool result, a model switch, a compaction or a pause brings it back; an input that comes to the head of the queue first stays
  there for good. Every loop whose queue holds events can get there if it has a positive compaction threshold, or a
  fallback provider with a positive switching interval, and no other can. Once the turn count equals a positive
  threshold no further input is answered.
- A compactor that starts from a last compaction time of 0, as the default configuration does
  (omokoda-core/src/compact.rs:269-281), never compacts on its time triggers alone; from a later time it does, at the
  first poll that comes the seconds of a trigger after it.
- Folds are documented as lossless (omokoda-core/src/dream.rs:15-18). With a positive overdue limit nothing folded leaves the archive
  unless it is unfolded, but once a live macro node is removed or pruned while its fold is archived, no live node leads to that fold
  any more. Consolidation, which ages the directory and removes what has become stale just before each cycle
  (omokoda-core/src/dream.rs:320-381, omokoda-core/src/tasks/scheduler.rs:186-191), removes macro nodes like any other
  entries.
- The payout engine's header promises deterministic output ordering (aether-veilsim/engine.js:13). Entries that
  compare equal by actor and job keep their order of submission, so with different scores the payouts depend on it.
- With `keep_recent >= threshold` a session compaction repeated with no new message replaces the summary by a
  summary of itself.

## Model

| member | source | states |
|---|---|---|
| GoalGenesis.DeriveGoals | omokoda-core/src/goal_genesis.rs:176-201 | pushing the survival goal, the conditional ones and the constitutional one in source order, then finalizing, yields exactly the ranked, truncated set of the specification |
| GoalGenesis.Evolve | omokoda-core/src/goal_genesis.rs:216-248 | the in-place decay, prune, fresh derivation and merge by (source, odu) yield the specified set for every current set and snapshot |
| GoalGenesis.Finalize | omokoda-core/src/goal_genesis.rs:252-268 | stable sort by falling rank score, cut to `max_goals`, stamped with the snapshot time |
| GoalGenesisProperties.SurvivalOutranksFresh | omokoda-core/src/goal_genesis.rs:277-396 | for any balance up to 1.1 no other fresh goal outranks the survival goal, whatever the counts, tier and twin vector, and for balances strictly between -7/3 and 1.1, so in the whole documented range, all rank strictly below it |
| GoalGenesisProperties.DerivedLeadsWithSurvival | omokoda-core/src/goal_genesis.rs:176-201 | so up to 1.1 a derived set of at least one goal starts with the survival goal, ties included |
| GoalGenesisProperties.FewOutrankSurvival | omokoda-core/src/goal_genesis.rs:216-268 | fewer merged candidates other than survival goals outrank the fresh survival goal than the old set held, however that set was built |
| GoalGenesisProperties.EvolveKeepsSurvival | omokoda-core/src/goal_genesis.rs:216-268 | one evolve, at a balance up to 1.1, of any set that holds a survival goal and is no larger than `max_goals` keeps one |
| GoalGenesisProperties.SurvivalAlwaysPresent | omokoda-core/src/goal_genesis.rs:179-180 | over every run of one derive and any number of evolves with balances up to 1.1, a survival goal is present if and only if `max_goals` is at least 1 |
| GoalGenesisProperties.SafeBalanceIff | omokoda-core/src/goal_genesis.rs:179-180 | a bound on the balance keeps a survival goal in every run of every engine with `max_goals >= 1` if and only if the bound is at most 1.1 |
| GoalGenesisProperties.DerivedHasSurvivalIff | omokoda-core/src/goal_genesis.rs:252-268 | at any balance a derived set holds its survival goal if and only if fewer than `max_goals` fresh goals rank strictly above it |
| GoalGenesisProperties.FailuresDisplaceSurvival | omokoda-core/src/goal_genesis.rs:294-313 | at every balance above 1.1, failures of at least six fifths of the actions push survival out of a set of one |
| GoalGenesisProperties.ReachableSetsAreWellFormed | omokoda-core/src/goal_genesis.rs:216-268 | for any clock, every reachable set is ranked, no larger than `max_goals`, free of duplicate (source, odu) pairs, and keeps urgency and alignment in [0, 1] |
| GoalGenesisProperties.FinalizeKeepsTheBest | omokoda-core/src/goal_genesis.rs:252-268 | every dropped candidate ranks no higher than any kept one, nothing is dropped while there is room, and kept plus dropped are exactly the candidates |
| GoalGenesisProperties.TiesKeepTheirOrder | omokoda-core/src/goal_genesis.rs:252-258 | candidates of equal rank keep their order, so fresh goals stay ahead of carried ones |
| GoalGenesisProperties.GoalsDecayByElapsedTime | omokoda-core/src/goal_genesis.rs:216-222 | for any clock, each goal of any reachable set is a fresh goal whose urgency fell by decay rate times the time passed since, clamped, however many evolves lay between; a step backwards counts as no time, and with times in order the time passed is the difference |
| GoalGenesisEvolution.EveryGoalIsKeptOrCrowdedOut | omokoda-core/src/goal_genesis.rs:225-248 | any old goal that, its urgency lowered by decay rate times elapsed time and clamped, scores at or above the threshold and shares source and Odù with no renewed goal is in the evolved set, and so is every renewed goal, unless that set is full of goals that score at least as high |
| GoalGenesisEvolution.NothingElseIsKept | omokoda-core/src/goal_genesis.rs:225-248 | and nothing else is in the evolved set |
| GoalGenesisEvolution.GoalsStayWhileTheyEndure | omokoda-core/src/goal_genesis.rs:216-248 | over any run a goal of a reachable set is in every later set, aged by the time passed, as long as no input prunes, replaces or crowds it out |
| GoalGenesisEvolution.DerivedSourcesIff | omokoda-core/src/goal_genesis.rs:176-201 | given room for five, a derived set has a goal from a stream if and only if failures, more than ten glyphs or the knowledge switch call for it, or it is one of the two that always contribute; and never two from one stream |
| GoalStreams.SameGoalIff | omokoda-core/src/goal_genesis.rs:216-248 | the goals of one stream from two inputs share a key, so that one replaces the other, if and only if the inputs agree in the dimension that the stream reads |
| GoalStreams.ScoreGrowsEvenly | omokoda-core/src/goal_genesis.rs:277-396 | over the documented range of balances each alignment score grows evenly between the two ends of its stream |
| GoalStreams.StampAndTier | omokoda-core/src/goal_genesis.rs:277-396 | goals are stamped with the time, and a tier from 1 to 3 is kept, but for consolidation, which is one up to 3 |
| GoalStreams.LastsItsLifetime | omokoda-core/src/goal_genesis.rs:277-396 | a fresh goal loses its urgency after exactly so many seconds: 4250 for survival, at most 2000 for failures, 8000/3 for consolidation, 1875 for knowledge and 10000 for the constitution, less as the input is less pressing |
| GoalStreams.NoGoalOutlivesItsStream | omokoda-core/src/goal_genesis.rs:216-248 | over any run, under a positive threshold, every goal was derived just now or less than its stream's lifetime ago |
| StableSort.SortIsStable | omokoda-core/src/goal_genesis.rs:252-258 | the library sort keeps each class of equivalent elements in its original order |
| StableSort.HeadPlace | omokoda-core/src/goal_genesis.rs:252-258 | only elements that the first one may not precede are sorted in front of it |
| StableSort.OrderedIsUnique | omokoda-core/src/goal_genesis.rs:252-258 | with no two equivalent elements the sorted list depends on the elements alone |
| SseHub.PanicsIff | omokoda-ops/sse.go:37-54 | in any state at all, reachable or not, a step panics exactly when it sends on or closes a closed channel |
| SseHub.AlwaysOk | omokoda-ops/sse.go:29-54 | over every interleaving of the subscribe, unsubscribe, broadcast and receive steps the hub keeps its lock, map, channel and delivery invariants |
| SseHub.NeverPanics | omokoda-ops/sse.go:37-54 | no line is ever sent on a closed channel and no channel is closed twice |
| SseHub.ReceivedInOrder | omokoda-ops/sse.go:44-54 | what a client has read, then what is pending for it, are the lines broadcast while it was registered, in order, without exactly those that were dropped |
| SseHub.FateDecided | omokoda-ops/sse.go:48-52 | a line offered to a client was dropped if and only if exactly 64 lines were pending for it at the time of the offer |
| SseHub.FirstLinesReachEveryClient | omokoda-ops/sse.go:29-35 | a client misses none of the first 64 lines broadcast after it joined, however slow it is |
| SseHub.KeepingUpMissesNothing | omokoda-ops/sse.go:48-52 | a client that never falls 64 lines behind has every line, read or pending |
| SseHub.LockHolderCanMove | omokoda-ops/sse.go:44-47 | no schedule blocks the lock: its holder always has an enabled next step, full channels included |
| SseProgress.LockCanBeFreed | omokoda-ops/sse.go:29-54 | from every reachable state some further steps free the lock, with nobody else moving on |
| SseProgress.CanBeServed | omokoda-ops/sse.go:29-54 | from every reachable state a client that has its channel can be served and then read the next line |
| SseProgress.CanReadWhatIsPending | omokoda-ops/sse.go:111-116 | a served client with something pending can read it at once, whoever holds the lock |
| SseProgress.CanLeave | omokoda-ops/sse.go:37-42 | from every reachable state a served client can leave the map and have its channel closed |
| Mnemonic.PayloadBits | aether-identity/mnemonic.js:40-47 | the bit loops push the entropy, most significant bit first, then the top bits of the first hash byte |
| Mnemonic.PadBits | aether-identity/mnemonic.js:49-52 | zero bits are added up to the next whole word and no further |
| Mnemonic.ReadWords | aether-identity/mnemonic.js:54-59 | shifting bits in one at a time reads the list as big-endian words of the given width |
| Mnemonic.EntropyToMnemonic | aether-identity/mnemonic.js:30-62 | encodes any byte string of an allowed length, and refuses every other length |
| Mnemonic.TrySize | aether-identity/mnemonic.js:99-119 | accepts a size exactly when it fits and the checksum after it matches, and returns its bytes |
| Mnemonic.MnemonicToEntropy | aether-identity/mnemonic.js:88-123 | tries the sizes downwards and returns the first accepted one, or the error of the first bad word or of a failed checksum |
| Mnemonic.ReencodeMnemonic | aether-identity/mnemonic.js:128-131 | decodes in one mode and encodes in the other, passing the error on |
| MnemonicProperties.TokenRoundTrip | aether-identity/mnemonic.js:74-83 | looking up the token of any index returns the index |
| MnemonicProperties.TokenInAnyCase | aether-identity/mnemonic.js:74-83 | a word is looked up as an index if and only if it is the token of that index with any of its letters in upper case |
| MnemonicProperties.WordErrors | aether-identity/mnemonic.js:69-83 | a word is refused as empty if and only if it is, for its characters if and only if one is no letter, digit or separator, and else as unknown if and only if it is no token in any letter case |
| MnemonicProperties.FirstBadWord | aether-identity/mnemonic.js:74-83 | the error of a list of words is that of the first bad one |
| MnemonicProperties.RoundTrip | aether-identity/mnemonic.js:30-123 | for every entropy of the five allowed sizes and both modes, decoding the encoded words returns the entropy, for any hash function |
| MnemonicProperties.PaddingIsIgnored | aether-identity/mnemonic.js:98-120 | the downward search stops at the right size whatever the padding bits are |
| MnemonicProperties.DecodeIsSound | aether-identity/mnemonic.js:88-123 | whatever is accepted, its leading bits are the returned entropy followed by its checksum |
| MnemonicProperties.ReencodeRoundTrip | aether-identity/mnemonic.js:128-131 | re-encoding a generated mnemonic gives the other mode's mnemonic, and re-encoding that gives it back |
| MnemonicProperties.ReencodeIsIdentityIffCanonical | aether-identity/mnemonic.js:98-131 | an accepted mnemonic re-encodes to itself if and only if it is lower case, has no surplus words and zero padding |
| MnemonicNumber.MnemonicIsNumber | aether-identity/mnemonic.js:30-62 | the words, read as digits in base 256 or 2048 by their places in the list, spell the entropy read as a big-endian number, then the leading bits of its hash, then fewer zero bits than a word has |
| MnemonicNumber.AcceptedIsNumber | aether-identity/mnemonic.js:88-123 | what is accepted, in any letter case, spells that number with any bits after the checksum |
| MnemonicNumber.BeginningIsAccepted | aether-identity/mnemonic.js:98-122 | words whose number begins with some entropy and its checksum are accepted, as that entropy or as a longer one |
| Wordspace.Base256IsListed | aether-identity/wordspace.js:26-28 | token i is element i of the list that joins every root in turn to every affix in turn |
| Wordspace.Exp2048IsListed | aether-identity/wordspace.js:31-33 | expanded token i is element i of the list that joins every such token in turn to every subtone in turn |
| Wordspace.SameRootIff | aether-identity/wordspace.js:26-28 | two tokens have the same part before the dash if and only if their indices are in the same block of sixteen |
| Wordspace.SameAffixIff | aether-identity/wordspace.js:26-28 | and the same part after it if and only if their indices are a multiple of sixteen apart |
| Wordspace.Base256IsInjective | aether-identity/wordspace.js:26-28 | the 256 root-affix tokens are pairwise different |
| Wordspace.Exp2048IsInjective | aether-identity/wordspace.js:31-33 | the 2048 expanded tokens are pairwise different |
| Merkle.MerkleRoot | aether-identity/wordspace.js:43-62 | the level loop terminates and returns the reduction of the hashed leaves, and the empty list is refused |
| Merkle.RootIsTree | aether-identity/wordspace.js:50-60 | the root is the top node of the pairwise tree in which node i at height h hashes its two children, a missing right child being the left one again |
| Merkle.RootDeterminesSlugs | aether-identity/wordspace.js:43-62 | two lists of equal length with the same root are equal, when the hash has no collision among what is hashed |
| Merkle.RepeatedLastSlugKeepsRoot | aether-identity/wordspace.js:51 | equal length is needed: repeating the last slug of an odd list of three or more never changes the root |
| Fractal.CountOccupied | omokoda-core/src/dream.rs:119-125 | marking boxes in an array counts the distinct boxes the timestamps fall into, the last one clamped |
| Fractal.BoxContains | omokoda-core/src/dream.rs:118-122 | box b of n holds the timestamps from b to b + 1 parts of n of the span, and the last box the end of the span as well |
| Fractal.FractalDimension | omokoda-core/src/dream.rs:106-139 | the loops compute the clamped least-squares slope over the six scales, and 1 for degenerate timelines |
| Fractal.DoublingBoxes | omokoda-core/src/dream.rs:118-126 | doubling the number of boxes never lowers the occupied count and at most doubles it, the clamped last box included |
| Fractal.EvenSlope | omokoda-core/src/dream.rs:129-138 | over six evenly spaced abscissae the least-squares quotient is a weighted mean of the five rises |
| Fractal.SlopeIsInRange | omokoda-core/src/dream.rs:129-138 | the slope already lies in [0, 1], so the clamp never changes it; it is 1 exactly when all 64 of the finest boxes are occupied and 0 exactly when only two are |
| Fractal.DegenerateTimelines | omokoda-core/src/dream.rs:104-114 | fewer than two distinct timestamps give 1 |
| RemSchedule.SabbathIff | omokoda-core/src/dream.rs:387-401 | the Sabbath is the third day of the epoch and every seventh day since, midnight to midnight in UTC |
| RemSchedule.OncePerDayIffLimitIsADay | omokoda-core/src/dream.rs:387-401 | over every run of polls REM runs at most once per UTC day if and only if the overdue limit is at least one day |
| RemSchedule.RunsIff | omokoda-core/src/dream.rs:387-401 | a poll runs if and only if at least the limit has passed since the latest run, or it is a Saturday and the latest run, if any, was on an earlier day |
| RemSchedule.OffSabbathRunsIff | omokoda-core/src/dream.rs:388-395 | off the Sabbath a poll runs if and only if there was a run before and at least the limit has passed since the latest |
| RemSchedule.RunsAtExactlyTheLimit | omokoda-core/src/dream.rs:389 | for every limit, a poll exactly that long after a first run does run |
| RemSchedule.RunIsSabbathOrOverdue | omokoda-core/src/dream.rs:387-401 | every run is on a Saturday or at least the overdue limit after the run before it |
| RemSchedule.RunsIncreaseIff | omokoda-core/src/dream.rs:387-401 | over all polls at any times, runs come at strictly increasing times if and only if the overdue limit is at least one second |
| RemSchedule.EverySabbathIsKept | omokoda-core/src/dream.rs:94-96 | no polled Saturday passes without a run on that day |
| RemSchedule.RunsAtMostAWeekApart | omokoda-core/src/dream.rs:387-401 | polled every UTC day, consecutive runs are at most seven day numbers apart |
| RemFold.DreamEngine.GroupNoise | omokoda-core/src/dream.rs:421-430 | the entries at or below the noise line, grouped by path, each group complete |
| RemFold.DreamEngine.FoldCluster | omokoda-core/src/dream.rs:438-504 | one cluster leaves the directory unchanged for the archive, and a macro node at least at the noise line and a tenth above its largest member takes its place |
| RemFold.DreamEngine.FoldClusters | omokoda-core/src/dream.rs:434-507 | exactly the large enough clusters are folded, earlier folds and all other entries untouched, and both counters count them |
| RemFold.DreamEngine.TryRemCycle | omokoda-core/src/dream.rs:408-534 | nothing happens unless due; otherwise the run is recorded, each large enough cluster is folded once, in some order and whatever is under the ids by then, the residue is pruned, and the whole report is exact; when no macro id it would use is taken, the order does not matter and the result is the one specified |
| RemFold.PerformedIsCycle | omokoda-core/src/dream.rs:434-510 | when no macro id is taken, folding the clusters one by one in any order and pruning is the one cycle specified |
| RemFates.FateOfAnEntry | omokoda-core/src/dream.rs:421-510 | an entry is archived under its path's macro node if and only if it is no more important than the noise line on a path with enough of the like; otherwise it is dropped if and only if it is below half the line, and else unchanged |
| RemFates.NothingElseIsLive | omokoda-core/src/dream.rs:421-510 | whatever else is live after a cycle is the macro node of a path that was folded |
| RemFates.MacroWeighs | omokoda-core/src/dream.rs:455-489 | a macro node is as important as the line or a tenth, whichever is more, or a tenth more important than its most important member, and so at most a tenth above the line or zero |
| RemFates.ReportCounts | omokoda-core/src/dream.rs:505-520 | the report counts the entries, paths and residue so described |
| RemFates.DecimalReads | omokoda-core/src/dream.rs:475 | the time in a macro id is written in decimal digits without leading zeros, and reads back as it was |
| RemFold.MacroIdIsInjective | omokoda-core/src/dream.rs:475 | a macro id determines its path and time, even if paths contain colons |
| RemFoldProperties.EveryEntryAccounted | omokoda-core/src/dream.rs:408-510 | each prior entry is exactly one of: live unchanged, archived unchanged under its path's macro node, or pruned below half the noise line; for any noise line |
| RemFoldProperties.ReportBalances | omokoda-core/src/dream.rs:505-520 | live entries after = before - folded + clusters - pruned, by the report's own counts |
| RemFoldProperties.UnfoldingRestores | omokoda-core/src/dream.rs:502-504 | unfolding the new macro nodes in any order restores the prior archive and every entry not pruned; only the last-access time of folded ones moves |
| RemFold.MacroSurvives | omokoda-core/src/dream.rs:487-489 | a macro node always outlives the residual prune, also for a negative noise line |
| RemRuns.CyclesFindWhatTheyNeed | omokoda-core/src/dream.rs:408-534 | over every run of inserts of plain ids, removals, ageing, prunes, unfolds and polls at any times, with a positive overdue limit, each cycle finds ids in order and its macro ids free, so it folds and prunes exactly as specified |
| RemRuns.InsertedIsHeld | omokoda-core/src/dream.rs:405-510 | over every such run an inserted entry is live or archived, until it is replaced, removed or pruned, however often it is folded and unfolded and whatever else is removed; only its last access moves, and its importance if there was ageing |
| RemRuns.SameSecondCollides | omokoda-core/src/dream.rs:387-475 | the limit has to be positive: at zero a second cycle in the same second is due and would reuse the macro ids of any path it folds again |
| RemReach.KnownIsReachableIff | omokoda-core/src/dream.rs:320-534 | over every such run everything live or archived is reached from the live nodes by nested unfolding at every point if and only if no operation takes a live macro node whose fold is still archived |
| RemReach.RemovedNodeOrphans | omokoda-core/src/dream.rs:320-534 | removing a macro node right after the cycle that made it does leave an archived entry no live node leads to |
| RemReach.AllReachableIff | omokoda-core/src/dream.rs:15-19 | in one directory this holds exactly when the node of every fold is live or archived |
| RemReach.PollsOrphanNothing | omokoda-core/src/dream.rs:487-510 | as long as nothing has aged no REM cycle takes such a node, also when nodes were folded again |
| RemFold.OduDirectory.Insert | omokoda-core/src/memory/memdir.rs:338-361 | the entry is stored under its id and nothing else changes |
| RemFold.OduDirectory.Remove | omokoda-core/src/memory/memdir.rs:372-386 | the entry, if any, is returned and gone |
| RemFold.OduDirectory.AgeEntries | omokoda-core/src/memory/memdir.rs:396-402 | every entry loses importance by the days elapsed, down to zero, and nothing else |
| RemFates.AgedBy | omokoda-core/src/memory/memdir.rs:396-402 | an importance falls by a tenth a day and is zero exactly from the time that uses it up |
| RemFates.AgedTwice | omokoda-core/src/memory/memdir.rs:396-402 | ageing twice is ageing once by the whole time |
| RemFold.OduDirectory.PruneStale | omokoda-core/src/memory/memdir.rs:412-418 | exactly the entries below the line are gone, and the count says how many |
| RemFold.OduDirectory.ArchiveFold | omokoda-core/src/memory/memdir.rs:450-454 | a non-empty fold is stored under its macro id |
| RemRuns.OneUnfoldRestores | omokoda-core/src/memory/memdir.rs:461-488 | an archived entry is live again, unchanged but for its last access since it was folded, after unfolding its fold |
| RemRuns.UnfoldOverwrites | omokoda-core/src/memory/memdir.rs:461-488 | the bar on inserting under an archived id is needed: unfolding puts the archived entry over the live one |
| RemFold.OduDirectory.Unfold | omokoda-core/src/memory/memdir.rs:461-488 | the macro node and its fold are gone and the folded entries are live again, touched; an unknown id changes nothing |
| AgentState.ApplyDelta | freenet-agent-state/src/merge.rs:15-48 | field-by-field update of a copy, refused for another agent or any version but the next (64-bit, wrapping) |
| AgentState.FullDeltaReaches | freenet-agent-state/src/merge.rs:33-47 | a delta naming every field reaches exactly the states of the same agent at the next version, with no two fields confused |
| AgentState.SilentDeltaKeeps | freenet-agent-state/src/merge.rs:33-46 | a delta naming no field changes only version, time and signature |
| AgentState.DeltaRisesUnlessWrapped | freenet-agent-state/src/merge.rs:25-47 | an accepted delta moves strictly up the merge order, except that one whose version has wrapped to 0 moves strictly down |
| AgentState.MergeIsMaximum | freenet-agent-state/src/merge.rs:53-66 | the merge is the maximum of a total preorder on version, time and hash, and keeps the left state on a tie |
| AgentState.MergeIsAssociative | freenet-agent-state/src/merge.rs:53-66 | grouping never matters, signatures included |
| AgentState.MergeCommutesIff | freenet-agent-state/src/merge.rs:53-66 | order matters exactly for distinct states that agree on version, time and hash |
| AgentState.SignaturesNeedNotConverge | freenet-agent-state/src/merge.rs:62-65 | two signatures over the same content: each replica keeps the one it saw first |
| AgentState.ReplicasConverge | freenet-agent-state/src/merge.rs:1-10 | replicas that saw the same set of states, in any order and with repeats, agree on version, time and hash, and on all signed content and the published summary when the hash tells those states apart |
| AgentState.MergeIgnoresOwner | freenet-agent-state/src/merge.rs:53-66 | a state of another agent wins exactly when it ranks higher |
| AgentStateProperties.MergedBeatsAll | freenet-agent-state/src/merge.rs:1-66 | however many states a replica merges, it keeps one of them that has the highest version, then the latest time, then the hash first in the dictionary |
| AgentStateProperties.EveryFieldIsPatched | freenet-agent-state/src/merge.rs:33-41 | each of the nine optional fields takes the value a delta names and else stays, whatever the delta says of the others |
| AgentStateProperties.LastNamedWins | freenet-agent-state/src/merge.rs:33-47 | over any accepted batch of deltas each field ends as the last delta to name it has it, or as it was |
| AgentStateProperties.DeltasAreAcceptedIff | freenet-agent-state/src/merge.rs:15-31 | a batch of deltas is accepted if and only if each names the agent and the versions count up by one; it ends with the last version, time and signature |
| AgentStateProperties.FirstRefusalIsReported | freenet-agent-state/src/merge.rs:19-31 | a refused batch reports its first delta that does not: a wrong agent before a wrong version |
| AgentState.UpdateState | freenet-agent-state/src/lib.rs:96-123 | the loop over deltas, full states and other updates yields the fold of the single steps, or the first refusal |
| AgentState.BatchNeverGoesBackIff | freenet-agent-state/src/lib.rs:104-119 | a successful batch never steps down the merge order if and only if none of its deltas carries version 0 |
| AgentState.BatchRises | freenet-agent-state/src/lib.rs:104-119 | and then it ends no lower than it began |
| AgentState.BatchesCompose | freenet-agent-state/src/lib.rs:104-119 | two batches in a row do what their concatenation does, refusals included |
| AgentState.OwnerIsKept | freenet-agent-state/src/lib.rs:104-119 | deltas never change the agent; it stays the same while full states name the same one |
| ResultCache.MemCell.Get | omokoda-simulation/server.py:66-71 | a hit returns the value and becomes the newest entry; a miss changes nothing |
| ResultCache.MemCell.Put | omokoda-simulation/server.py:73-78 | the entry becomes the newest, and the oldest leaves if there are too many |
| ResultCache.ToolRunner.Execute | omokoda-simulation/server.py:132-178 | unknown tool, low tier, cache hit, tool failure and fresh run each give their reply and their effect on the cache |
| ResultCacheProperties.TouchKeepsMostRecent | omokoda-simulation/server.py:66-78 | touching a key keeps the list at exactly the most recently touched keys, by position of their last touch |
| ResultCacheProperties.CachedIff | omokoda-simulation/server.py:73-78 | a key is cached exactly when it was touched and fewer than `max_size` other keys were touched since |
| ResultCacheProperties.StoreIsMostRecent | omokoda-simulation/server.py:58-78 | after any run of gets and puts the store is the `max_size` most recently touched keys in recency order, each with its last put value |
| ResultCacheProperties.KeyStringIsInjective | omokoda-simulation/server.py:63-64 | the key string determines tool and parameters, as no registered tool name contains a colon |
| ResultCacheProperties.RepliesAreUncached | omokoda-simulation/server.py:132-178 | for deterministic tools and no digest collision, every reply of any run of requests is the uncached one, and comes from the cache exactly when fewer than `max_size` other worthwhile keys were served since |
| RunnerOutputs.OutputIsFiltered | omokoda-simulation/server.py:132-178 | over any run an output is given if and only if the tool is registered, the tier is enough and the tool returns, and it is then the filtered text of that very request, cacheable or not |
| RunnerOutputs.OutputsAreFiltered | omokoda-simulation/server.py:132-178 | even for tools that answer differently each time and digests that collide, an output is the filtered text of this call or of an earlier one of the same digest whose tool only reads, so whatever holds of every filtered text holds of it |
| RunnerOutputs.RepeatIsCached | omokoda-simulation/server.py:150-176 | a reading, cacheable tool asked again at once is answered from the cache with the same output |
| TokenLedger.KeyIsInjective | aether-economy/token.js:54-56 | no two accounts share a balance key, whatever holders are called |
| TokenLedger.TokenLedger.Mint | aether-economy/token.js:65-87 | positive authorized amounts are logged and credited; anything else is refused without effect |
| TokenLedger.TokenLedger.Burn | aether-economy/token.js:89-115 | non-positive amounts do nothing, uncovered ones are refused, others are logged and debited |
| TokenLedger.TokenLedger.Transfer | aether-economy/token.js:131-143 | logs a burn and a transfer, or only the transfer for a non-positive amount; the books stay what the log says |
| TokenLedgerProperties.ReplayReproduces | aether-economy/token.js:65-143 | over every run, for all amounts, replaying the log from empty gives every balance, the supplies and the burn totals |
| TokenLedgerProperties.BalancesSumToSupply | aether-economy/token.js:65-143 | for each token the balances always add up to the total supply |
| TokenLedgerProperties.MintedIsHeldOrBurned | aether-economy/token.js:65-143 | minted + transferred = supply + burned, and the burn total is the sum of logged burns |
| TokenLedgerProperties.BalanceIsNet | aether-economy/token.js:65-143 | each balance is the net of the log records naming its account |
| TokenLedgerProperties.StaysNonNegativeIff | aether-economy/token.js:131-143 | an operation makes a balance negative if and only if it is a transfer of a negative amount the recipient cannot cover |
| TokenLedgerProperties.RunsStayNonNegative | aether-economy/token.js:65-143 | without negative transfers no balance is ever negative |
| TokenLedgerProperties.TransferMoves | aether-economy/token.js:131-143 | an accepted transfer moves the amount and keeps the supply; a negative one draws on the recipient and the supply instead |
| TokenLedgerProperties.LogIsLawful | aether-economy/token.js:65-143 | over any run every mint in the log is positive and from an authorised source, every burn is positive, and every transfer is of Synapse and, if positive, follows the burn that pays for it |
| TokenLedgerProperties.LoggedIs | aether-economy/token.js:65-143 | each operation is logged if and only if its amount, source and token and the balance it finds allow it |
| Wallet.Wallet.Lock | aether-economy/wallet.js:121-130 | burns the amount and adds it to the purpose pool, or is refused without effect |
| Wallet.Wallet.Unlock | aether-economy/wallet.js:135-144 | mints a positive pool back and empties it |
| Wallet.Wallet.Spend | aether-economy/wallet.js:164-167 | burns, or is refused without effect |
| Wallet.Wallet.ApplyDecay | aether-economy/wallet.js:174-192 | its result is the decay outcome: nothing within the day, else the floored linear charge for whole days, burned and timed, or refused with books and decay clock left alone |
| Wallet.LockMoves | aether-economy/wallet.js:121-130 | a covered lock of a positive amount moves it from balance to pool and nothing else; an uncovered one moves nothing |
| Wallet.UnlockMoves | aether-economy/wallet.js:135-144 | an unlock moves all of a positive pool to the balance and nothing else; any other pool is left alone |
| Wallet.LockConservesIff | aether-economy/wallet.js:121-130 | an accepted lock conserves what the owner holds, and what backs the supply, if and only if the amount is not negative |
| Wallet.UnlockConserves | aether-economy/wallet.js:135-144 | an unlock conserves both, and leaves nothing positive in the pool |
| Wallet.LockUnlockRoundTrip | aether-economy/wallet.js:121-144 | locking into an empty pool and unlocking restores every balance, pool and supply; only the burn total remembers |
| Wallet.PoolsConserve | aether-economy/wallet.js:121-144 | over any run of locks and unlocks of any amounts, tokens and pools, what is held and what backs the supply fall by exactly the accepted negative locks |
| Wallet.PoolsConserveIff | aether-economy/wallet.js:121-144 | so a run conserves if and only if it accepts no lock of a negative amount of the token |
| Decay.DecayEngine.DecayAgent | aether-economy/decay.js:27-63 | only a funded agent at least a day on is charged; it keeps the floored compound remainder, and clock and history record it |
| Decay.DailyTrailsCatchUp | aether-economy/decay.js:40-43 | d daily decays end at or below one d-day catch-up, by at most d - 1 units and always by less than 99 |
| Decay.Bernoulli | aether-economy/decay.js:41 | compound decay retains at least what linear decay would |
| DecayRuns.ChargesIff | aether-economy/decay.js:27-63 | over any run of calls for any agents, a call charges if and only if it is for an agent with something to decay, at least a day after the wallet was created and after every record of that agent; otherwise it changes nothing |
| DecayRuns.EachDayIsChargedOnce | aether-economy/decay.js:32-49 | the days in an agent's records are never more than the whole days from its creation to the latest of them |
| DecayRuns.BalanceBetween | aether-economy/decay.js:40-49 | however the calls come, the balance lies between daily decay and one catch-up over the days charged |
| DecayRuns.DailyCallsDecayDaily | aether-economy/decay.js:27-63 | calls on successive days leave exactly the daily decay, less than 99 units below one catch-up |
| DecayRuns.EpochIsForgotten | aether-economy/decay.js:32 | a call at time zero is taken for none: the days before it are charged again by the next |
| DecayRuns.LinearCall | aether-economy/wallet.js:174-192 | the wallet's own decay takes nothing within a day, one per cent for each whole day rounded down from then on, and is refused, changing nothing, exactly when that is more than there is |
| DecayRuns.LinearDaysFit | aether-economy/wallet.js:174-192 | over any run of those calls and credits the days charged fit into the time since the start |
| Decay.CatchUpBeatsLinear | aether-economy/wallet.js:180-183 | for any number of days the catch-up leaves at least what the linear rule leaves less one unit |
| Decay.CatchUpCanTrailByOne | aether-economy/wallet.js:180-183 | that unit is needed: it is lost over one day from a balance of one |
| Decay.LinearRefusedIff | aether-economy/wallet.js:180-191 | the linear charge exceeds the balance, so decay throws, exactly from a computable day past the hundredth |
| Decay.LinearStaysRefused | aether-economy/wallet.js:180-186 | for a fixed balance it does so on every later day |
| Decay.ChargeIsBurnt | aether-economy/wallet.js:185-187 | the books take exactly the positive part of the charge from the owner, so runs over balances are runs over books |
| Decay.RefusedForGood | aether-economy/wallet.js:174-192 | over any run of decay calls at non-decreasing times and credits, once a call is refused every later one is, as long as nothing is debited |
| Compaction.CompactionEngine.Compact | omokoda-core/src/compact.rs:71-101 | above the threshold all but the newest messages give way to one summary that counts them |
| Compaction.MicroCompactEngine.Compact | omokoda-core/src/compact.rs:296-315 | a batch of the oldest messages is dropped, never below the minimum |
| Compaction.AutoCompactor.ShouldCompact | omokoda-core/src/compact.rs:343-366 | the trigger loop answers whether any trigger fires |
| Compaction.AutoCompactor.CompactIfNeeded | omokoda-core/src/compact.rs:377-390 | a due session is compacted by its strategy, and the attempt is timed even if nothing was removed |
| Compaction.RunKeepsASuffix | omokoda-core/src/compact.rs:71-101 | over any run of pushes, compactions and polls the list is at most one summary and a suffix of the history, never shorter than the smaller keep limit allows, and the counts account for every message and summary removed |
| Compaction.CompactionSettlesIff | omokoda-core/src/compact.rs:71-101 | compacting again at once does nothing if and only if fewer messages are kept than the threshold; else each call summarizes its own summary |
| Compaction.FirstCompactionIff | omokoda-core/src/compact.rs:343-366 | while the last compaction time is 0 only count and energy triggers can fire |
| Compaction.TimeTriggersIdleIff | omokoda-core/src/compact.rs:356-362 | time triggers add nothing to the others, whatever the session and the clock, if and only if there are none or the last compaction time is 0 |
| Compaction.TimeAloneNeverDueIff | omokoda-core/src/compact.rs:335-390 | with time triggers alone no poll of a run is ever due if and only if the configured last compaction time is 0 or every poll comes less than every trigger's seconds after it; explicit compactions make no difference |
| Compaction.TimeAloneNeverFires | omokoda-core/src/compact.rs:356-362 | and then no poll removes anything, so over pushes and polls the list is the whole history |
| Compaction.PollBoundsTheList | omokoda-core/src/compact.rs:377-390 | a count trigger bounds the list after every poll, under the summarizing strategies |
| CompactionProperties.DueByTheTightest | omokoda-core/src/compact.rs:343-366 | a list of triggers fires exactly when there are more messages than its lowest count, less energy than its highest threshold, or a recorded compaction at least its shortest time ago |
| CompactionProperties.DuePollsAreSpaced | omokoda-core/src/compact.rs:343-390 | with time triggers alone, none of no time at all, two due polls are at least the shortest time apart, however the clock goes |
| CompactionProperties.ReportsWhatItRemoved | omokoda-core/src/compact.rs:71-101 | a report of nothing means nothing changed; any other counts what was removed, and the summary agrees |
| CompactionProperties.SessionCompactionLeaves | omokoda-core/src/compact.rs:71-101 | above the threshold one summary, which counts what it stands for, and the newest messages to be kept; else everything |
| CompactionProperties.MicroRunLeaves | omokoda-core/src/compact.rs:296-303 | repeated micro compaction leaves the newest messages, a batch fewer each time, down to the minimum |
| CompactionProperties.MicroReachesTheMinimum | omokoda-core/src/compact.rs:296-303 | and gets there after exactly as many calls as cover the excess in batches, if batches are positive |
| MainLoop.MainLoop.Push | omokoda-core/src/main_loop.rs:233-242 | refused exactly when stopped or full, else appended |
| MainLoop.MainLoop.Drain | omokoda-core/src/main_loop.rs:245-260 | pops and processes up to the limit, stopping at a stop, with the outcomes in order |
| MainLoop.MainLoop.Process | omokoda-core/src/main_loop.rs:263-396 | stop, due compaction and armed model switch pre-empt the event in that order; else each event has its effect on state, queue, history and turn |
| MainLoop.UnreadIff | omokoda-core/src/main_loop.rs:263-291 | a popped event is discarded unread, the outcome being the same for any event, if and only if the loop is stopped, compaction is due or a switch is armed |
| MainLoop.AcceptedIsTakenThenQueued | omokoda-core/src/main_loop.rs:233-306 | over any run of push and drain the accepted events are the handled and the discarded ones, interleaved as taken, then the queued ones, in order, despite re-queueing at the head |
| MainLoop.HistoryIsWhatWasHandled | omokoda-core/src/main_loop.rs:293-380 | over any run the history grows by exactly the recordable events handled, in order, and by nothing discarded or put back |
| MainLoop.PushKeepsCapacity | omokoda-core/src/main_loop.rs:237-301 | and the queue stays within capacity |
| MainLoopProperties.RunIsLater | omokoda-core/src/main_loop.rs:263-396 | over any run history only grows, turns count the answered inputs, and the other run guarantees below hold together |
| MainLoopProperties.TurnsNeverPassTheThreshold | omokoda-core/src/main_loop.rs:268-276 | from a new loop the turn count never passes a positive compaction threshold and equals the number of answered inputs |
| MainLoopProperties.StoppedIsForever | omokoda-core/src/main_loop.rs:264-266 | once stopped nothing changes but the queue |
| MainLoopProperties.NoTurnsPastTheThreshold | omokoda-core/src/main_loop.rs:268-301 | as nothing lowers the count, once it equals the threshold no input is ever answered again |
| MainLoopProperties.PopDoesNothingIff | omokoda-core/src/main_loop.rs:294-301 | a pop changes nothing exactly when it puts a busy input back |
| MainLoopProperties.WedgedForever | omokoda-core/src/main_loop.rs:294-301 | with a busy input at the head, pushes only lengthen the queue and drains do nothing, over every run |
| MainLoopProperties.ThresholdWedges | omokoda-core/src/main_loop.rs:268-301 | one way there: due compaction drops one event and an input behind it wedges the loop |
| MainLoopWedges.SwitchWedges | omokoda-core/src/main_loop.rs:279-301 | the other way: an armed model switch drops one event and an input behind it wedges the loop |
| MainLoopWedges.NeverWedgesIff | omokoda-core/src/main_loop.rs:233-306 | a new loop is never wedged by any run if and only if its queue has no capacity, or its compaction threshold is zero and no positive switching interval comes with a fallback provider |
| MainLoopStates.BusyAcceptsAgainIff | omokoda-core/src/main_loop.rs:293-396 | an event that is read brings a busy loop back to taking input if and only if it is a tool result, a model switch, a compaction or a pause; a shutdown stops it and any other leaves it as it is |
| MainLoopStates.PausedResumesIff | omokoda-core/src/main_loop.rs:293-396 | a paused loop stays paused exactly for a pause or a finished background task, and stops exactly for a shutdown |
| MainLoopStates.IdleStaysIff | omokoda-core/src/main_loop.rs:293-396 | an idle loop stays idle but for a pause or a shutdown |
| MainLoopStates.OutcomeTells | omokoda-core/src/main_loop.rs:263-396 | each outcome tells the state and the provider the loop is left with, and reports it busy exactly when the pop changed nothing |
| MainLoopStates.DrainTells | omokoda-core/src/main_loop.rs:245-260 | a drain ends with the provider of the last switch among its outcomes, and in the state its last outcome tells |
| MainLoopStates.HistoryIsAnswered | omokoda-core/src/main_loop.rs:293-380 | over any run of a new loop each event in the history got its own answer: inputs the numbers of their turns in order, results their own texts |
| Payouts.VeilSimEngine.Submit | aether-veilsim/engine.js:34-58 | accepted submissions are recorded, others refused for their first fault |
| Payouts.VeilSimEngine.DistributeEpoch | aether-veilsim/engine.js:68-123 | a non-positive pool is refused; no or only zero scores pay nobody and keep the submissions; else everyone listed is paid and the epoch recorded |
| Payouts.VeilSimEngine.Split | aether-veilsim/engine.js:87-107 | the loop pays floored shares in order and the remainder to the last |
| Payouts.PaidInOrder | aether-veilsim/engine.js:74-79 | payouts come in the order of their actors and, where the actors compare equal, of their jobs |
| Payouts.WeightsSumToOne | aether-veilsim/engine.js:92-107 | the normalised weights add up to one |
| Payouts.RewardsSumToThePool | aether-veilsim/engine.js:94-106 | the rewards add up to the pool exactly |
| Payouts.RewardsAreFloors | aether-veilsim/engine.js:97 | every reward but the last is non-negative and within one micro-unit below its exact share |
| Payouts.LastTakesTheDust | aether-veilsim/engine.js:94-96 | the last gets at least its share, by less than a micro-unit for each other entry and exactly it when alone |
| Payouts.OrderDoesNotMatterIff | aether-veilsim/engine.js:74-107 | payouts do not depend on submission order if and only if entries that compare equal agree in actor, job and score, or no entry has a score |
| Payouts.OrderDoesNotMatter | aether-veilsim/engine.js:74-79 | payouts do not depend on submission order when no two entries compare equal by actor and job |
| Payouts.EverySubmissionIsPaidOnce | aether-veilsim/engine.js:88-107 | the payouts name every submission of the epoch exactly once, and no one else |
| PayoutRuns.AcceptedIff | aether-veilsim/engine.js:34-58 | a submission is accepted if and only if it has both names, a score from 0 to 1 and a proof; otherwise the first fault is named |
| PayoutRuns.AcceptedIsPaidOrPending | aether-veilsim/engine.js:34-123 | over any run of submissions and distributions each accepted submission was paid exactly once in some epoch or is pending, and nobody else was paid |
| PayoutRuns.PoolsArePaidOut | aether-veilsim/engine.js:68-123 | over any run all the rewards add up to all the pools, epoch by epoch, and epochs are numbered from zero |

## Left out

- GoalGenesis.Evolve: identifiers and descriptions of goals are not modelled, and numbers are exact reals instead of f32.
- SseHub.AlwaysOk: the upstream connection, HTTP writing, keepalive lines and client cancellation causes are left out; any client may leave at any time, and one relay goroutine broadcasts, as the program starts only one.
- MnemonicProperties.RoundTrip: words are restricted to ASCII strings, so NFKD normalisation is the identity; seed derivation is left out.
- Mnemonic.TrySize: the constant-time comparison is plain equality.
- Merkle.MerkleRoot: the hexadecimal rendering of the root and the pinned root constant are left out.
- Fractal.FractalDimension: the logarithm is any function that is increasing and turns doubling into adding ln 2, and boxes are exact quotients instead of f64 ones.
- RemFold.DreamEngine.TryRemCycle: the fractal dimension and possible supersessions in the report, the narrative, tags and fold-integrity commitment of macro nodes, and the run lock are not modelled; the order of clusters and of ids within a fold is any order.
- RemRuns.InsertedIsHeld: edits of live entries other than ageing are left out; inserted ids are plain ones, not macro ids, and none is inserted while archived. Consolidation is not an operation of its own but ageing, removals and a prune in a row; its lock, interval, cap and summary are left out.
- RemFold.OduDirectory.Unfold: one clock reading stands for the reading taken at each restored entry; vocabulary, entity and content-hash indexes and swarm entries are left out.
- AgentState.ApplyDelta: byte encodings, signature checks and `get_state_delta` are left out; updates are typed values, and the release build's wrapping increment is modelled, not the debug build's panic.
- ResultCache.ToolRunner.Execute: the output filter, the digest and the tools are parameters; log lines are left out, and requests are handled one at a time.
- TokenLedger.TokenLedger.Burn: timestamps and burn receipts are left out; amounts are exact integers.
- TokenLedger.TokenLedger.Transfer: a transfer of Àṣẹ, which fails on its missing configuration, is refused like one of Dopamine.
- DecayRuns.ChargesIff: holds unless a wallet is older than the epoch by a day and is called at time zero, which the engine forgets.
- Wallet.Wallet.ApplyDecay: the birth endowment, identity and events are left out; one per cent is exact.
- Decay.DecayEngine.DecayAgent: the wallet registry lookup is a nullable parameter, and powers are exact; `decayAll` and the scheduler only repeat the call.
- Compaction.CompactionEngine.Compact: the text of summaries, file and task extraction, and the token estimators are left out.
- MainLoop.MainLoop.Process: token usage, budget, stop conditions and the SOMA lifecycle are left out; the turn count does not wrap at 2^32, which only a zero threshold could reach. The queue claims are for push and drain; processing from outside a drain can exceed the capacity.
- Payouts.VeilSimEngine.DistributeEpoch: events and the entropy digest are left out; numbers are exact reals, so not-a-number and infinite scores do not arise.
- Escrow, staking and slashing, conversion, royalties, network, process, model-provider and interface code, and the real cryptography, are outside the model.
