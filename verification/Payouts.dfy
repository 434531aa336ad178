/**
 Epoch payouts (aether-veilsim/engine.js): submissions collected in place, then a pool split in proportion to
 score, floored to micro-units, the last in order taking the remainder. Exact reals stand for numbers, and
 the locale's string comparison is a parameter.
 */
module Payouts {
  import opened Collections
  import opened StableSort

  datatype Submission = Submission(actor: string, jobId: string, score: real, determinismProof: string, timestamp: int)

  datatype Payout = Payout(actor: string, jobId: string, score: real, normalizedWeight: real, reward: real)

  datatype Epoch = Epoch(epoch: nat, pool: real, payouts: seq<Payout>, totalDistributed: real)

  datatype SubmitResult = Accepted(record: Submission) | MissingIds | InvalidScore | MissingProof

  datatype EpochResult = Distributed(epoch: Epoch) | PoolNotPositive

  /** Strings in locale order: `x` does not come after `y`. */
  type Collation = (string, string) -> bool

  const MICRO := 1000000.0

  // ---- What a distribution pays ----

  /** What a payout and its submission have in common. */
  datatype Entry = Entry(actor: string, jobId: string, score: real)

  function EntryOf(sub: Submission): Entry { Entry(sub.actor, sub.jobId, sub.score) }

  /** By actor, and by job for actors that compare equal. */
  predicate Precedes(x: Entry, y: Entry, le: Collation) {
    if le(x.actor, y.actor) && le(y.actor, x.actor) then le(x.jobId, y.jobId) else le(x.actor, y.actor)
  }

  predicate InOrder(a: Submission, b: Submission, le: Collation) {
    Precedes(EntryOf(a), EntryOf(b), le)
  }

  /** The entries as submitted, and as paid. */
  function Submitted(subs: seq<Submission>): seq<Entry> {
    seq(|subs|, i requires 0 <= i < |subs| => EntryOf(subs[i]))
  }

  function PaidOut(payouts: seq<Payout>): seq<Entry> {
    seq(|payouts|, i requires 0 <= i < |payouts| => Entry(payouts[i].actor, payouts[i].jobId, payouts[i].score))
  }

  function Sorted(subs: seq<Submission>, le: Collation): (r: seq<Submission>)
    ensures |r| == |subs|
  {
    Sort(subs, (a, b) => InOrder(a, b, le))
  }

  function TotalScore(subs: seq<Submission>, n: nat): real
    requires n <= |subs|
  {
    if n == 0 then 0.0 else TotalScore(subs, n - 1) + subs[n - 1].score
  }

  /** The exact proportional share. */
  function Share(score: real, total: real, pool: real): real
    requires total != 0.0
  {
    score / total * pool
  }

  function FloorToMicro(x: real): real {
    (x * MICRO).Floor as real / MICRO
  }

  function SumOfRewards(payouts: seq<Payout>, n: nat): real
    requires n <= |payouts|
  {
    if n == 0 then 0.0 else SumOfRewards(payouts, n - 1) + payouts[n - 1].reward
  }

  /** Payout `i` of a distribution over `subs`, in order. */
  ghost predicate PaysAt(payouts: seq<Payout>, subs: seq<Submission>, pool: real, i: nat)
    requires i < |subs| && |payouts| == |subs| && TotalScore(subs, |subs|) != 0.0
  {
    var total := TotalScore(subs, |subs|);
    && payouts[i].actor == subs[i].actor && payouts[i].jobId == subs[i].jobId && payouts[i].score == subs[i].score
    && payouts[i].normalizedWeight == subs[i].score / total
    && payouts[i].reward ==
         if i == |subs| - 1 then pool - SumOfRewards(payouts, |subs| - 1)
         else FloorToMicro(Share(subs[i].score, total, pool))
  }

  ghost predicate Pays(payouts: seq<Payout>, subs: seq<Submission>, pool: real)
    requires TotalScore(subs, |subs|) != 0.0
  {
    |payouts| == |subs| && forall i :: 0 <= i < |subs| ==> PaysAt(payouts, subs, pool, i)
  }

  predicate ValidScore(score: real) {
    0.0 <= score <= 1.0
  }

  function Checked(s: Submission, now: int): SubmitResult {
    if s.actor == "" || s.jobId == "" then MissingIds
    else if !ValidScore(s.score) then InvalidScore
    else if s.determinismProof == "" then MissingProof
    else SubmitResult.Accepted(s.(timestamp := if s.timestamp != 0 then s.timestamp else now))
  }

  class VeilSimEngine {
    var epochs: seq<Epoch>
    var currentSubmissions: seq<Submission>

    constructor ()
      ensures Valid() && epochs == [] && currentSubmissions == []
    {
      epochs, currentSubmissions := [], [];
    }

    /** Every submission on record passed the checks. */
    ghost predicate Valid()
      reads this
    {
      AllValid(currentSubmissions)
    }

    method Submit(s: Submission, now: int) returns (r: SubmitResult)
      requires Valid()
      modifies this`currentSubmissions
      ensures Valid()
      ensures r == Checked(s, now)
      ensures currentSubmissions == old(currentSubmissions) + if r.Accepted? then [r.record] else []
    {
      if s.actor == "" || s.jobId == "" {
        return MissingIds;
      }
      if !ValidScore(s.score) {
        return InvalidScore;
      }
      if s.determinismProof == "" {
        return MissingProof;
      }
      var record := s.(timestamp := if s.timestamp != 0 then s.timestamp else now);
      currentSubmissions := currentSubmissions + [record];
      r := SubmitResult.Accepted(record);
    }

    /** Pays the epoch out and starts the next; with nothing to go by, pays nobody and keeps the submissions. */
    method DistributeEpoch(pool: real, le: Collation) returns (r: EpochResult)
      requires Valid()
      modifies this
      ensures Valid()
      ensures r.PoolNotPositive? <==> pool <= 0.0
      ensures r.PoolNotPositive? ==> epochs == old(epochs) && currentSubmissions == old(currentSubmissions)
      ensures r.Distributed? ==>
        var subs := Sorted(old(currentSubmissions), le);
        && r.epoch.epoch == |old(epochs)| && r.epoch.pool == pool
        && if TotalScore(subs, |subs|) == 0.0 then
             && r.epoch.payouts == [] && r.epoch.totalDistributed == 0.0
             && epochs == old(epochs) && currentSubmissions == old(currentSubmissions)
           else
             && Pays(r.epoch.payouts, subs, pool)
             && r.epoch.totalDistributed == SumOfRewards(r.epoch.payouts, |subs|)
             && epochs == old(epochs) + [r.epoch] && currentSubmissions == []
    {
      hide Sort;
      if pool <= 0.0 {
        return PoolNotPositive;
      }
      if |currentSubmissions| == 0 {
        return Distributed(Epoch(|epochs|, pool, [], 0.0));
      }
      var subs := Sorted(currentSubmissions, le);
      var totalScore := 0.0;
      for i := 0 to |subs|
        invariant totalScore == TotalScore(subs, i)
      {
        totalScore := totalScore + subs[i].score;
      }
      if totalScore == 0.0 {
        return Distributed(Epoch(|epochs|, pool, [], 0.0));
      }
      var payouts, distributed := Split(subs, totalScore, pool);
      var epoch := Epoch(|epochs|, pool, payouts, distributed);
      epochs := epochs + [epoch];
      currentSubmissions := [];
      r := Distributed(epoch);
    }

    /** The payout loop. */
    static method Split(subs: seq<Submission>, totalScore: real, pool: real)
      returns (payouts: seq<Payout>, distributed: real)
      requires subs != [] && totalScore == TotalScore(subs, |subs|) != 0.0
      ensures Pays(payouts, subs, pool)
      ensures distributed == SumOfRewards(payouts, |subs|)
    {
      hide FloorToMicro, Share, TotalScore;
      payouts, distributed := [], 0.0;
      for i := 0 to |subs|
        invariant |payouts| == i && distributed == SumOfRewards(payouts, i)
        invariant forall j :: 0 <= j < i ==> PaidAt(payouts, subs, totalScore, pool, j)
      {
        var s := subs[i];
        var reward := if i == |subs| - 1 then pool - distributed else FloorToMicro(Share(s.score, totalScore, pool));
        ghost var before := payouts;
        payouts := payouts + [Payout(s.actor, s.jobId, s.score, s.score / totalScore, reward)];
        SameSums(before, payouts, i);
        PaidNext(before, payouts, subs, totalScore, pool);
        distributed := distributed + reward;
      }
      PaidInFull(payouts, subs, pool);
    }
  }

  /** As PaysAt, while payouts are still being added: the sum is of the rewards before this one. */
  ghost predicate PaidAt(payouts: seq<Payout>, subs: seq<Submission>, total: real, pool: real, i: nat)
    requires i < |subs| && i < |payouts| && total != 0.0
  {
    && payouts[i].actor == subs[i].actor && payouts[i].jobId == subs[i].jobId && payouts[i].score == subs[i].score
    && payouts[i].normalizedWeight == subs[i].score / total
    && payouts[i].reward ==
         if i == |subs| - 1 then pool - SumOfRewards(payouts, i) else FloorToMicro(Share(subs[i].score, total, pool))
  }

  lemma PaidNext(before: seq<Payout>, payouts: seq<Payout>, subs: seq<Submission>, total: real, pool: real)
    requires total != 0.0 && |before| + 1 == |payouts| <= |subs| && before == payouts[..|before|]
    requires forall j :: 0 <= j < |before| ==> PaidAt(before, subs, total, pool, j)
    requires
      var i := |before|;
      && payouts[i].actor == subs[i].actor && payouts[i].jobId == subs[i].jobId && payouts[i].score == subs[i].score
      && payouts[i].normalizedWeight == subs[i].score / total
      && payouts[i].reward ==
           if i == |subs| - 1 then pool - SumOfRewards(before, i) else FloorToMicro(Share(subs[i].score, total, pool))
    ensures forall j :: 0 <= j < |payouts| ==> PaidAt(payouts, subs, total, pool, j)
  {
    hide FloorToMicro, Share, SumOfRewards;
    forall j | 0 <= j < |payouts| ensures PaidAt(payouts, subs, total, pool, j) {
      SameSums(before, payouts, j);
      if j < |before| { assert PaidAt(before, subs, total, pool, j); }
    }
  }

  lemma PaidInFull(payouts: seq<Payout>, subs: seq<Submission>, pool: real)
    requires TotalScore(subs, |subs|) != 0.0 && |payouts| == |subs|
    requires forall i :: 0 <= i < |subs| ==> PaidAt(payouts, subs, TotalScore(subs, |subs|), pool, i)
    ensures Pays(payouts, subs, pool)
  {
    hide FloorToMicro, Share, TotalScore, SumOfRewards;
    forall i | 0 <= i < |subs| ensures PaysAt(payouts, subs, pool, i) {
      assert PaidAt(payouts, subs, TotalScore(subs, |subs|), pool, i);
    }
  }

  lemma {:induction false} SameSums(a: seq<Payout>, b: seq<Payout>, n: nat)
    requires n <= |a| && n <= |b| && forall i :: 0 <= i < n ==> a[i] == b[i]
    ensures SumOfRewards(a, n) == SumOfRewards(b, n)
  {
    if n == 0 {
    } else {
      SameSums(a, b, n - 1);
    }
  }

  // ---- Shares and their floors ----

  lemma FloorLosesLessThanAMicroUnit(x: real)
    ensures 0.0 <= x - FloorToMicro(x) < 1.0 / MICRO
    ensures x >= 0.0 ==> FloorToMicro(x) >= 0.0
  {
  }

  /** The exact shares of the first `n`, together. */
  function SumOfShares(subs: seq<Submission>, n: nat, total: real, pool: real): real
    requires n <= |subs| && total != 0.0
  {
    if n == 0 then 0.0 else SumOfShares(subs, n - 1, total, pool) + Share(subs[n - 1].score, total, pool)
  }

  lemma {:induction false} SharesAreProportional(subs: seq<Submission>, n: nat, total: real, pool: real)
    requires n <= |subs| && total != 0.0
    ensures SumOfShares(subs, n, total, pool) == TotalScore(subs, n) / total * pool
  {
    if n == 0 {
      assert 0.0 / total == 0.0;
    } else {
      SharesAreProportional(subs, n - 1, total, pool);
      AddShares(TotalScore(subs, n - 1), subs[n - 1].score, total, pool);
    }
  }

  lemma AddShares(x: real, y: real, total: real, pool: real)
    requires total != 0.0
    ensures (x + y) / total * pool == x / total * pool + y / total * pool
  {
    assert (x + y) / total == x / total + y / total;
  }

  lemma {:induction false} ScoresAddUp(subs: seq<Submission>, n: nat)
    requires n <= |subs| && forall i :: 0 <= i < |subs| ==> ValidScore(subs[i].score)
    ensures TotalScore(subs, n) >= 0.0
    ensures TotalScore(subs, n) == 0.0 <==> forall i :: 0 <= i < n ==> subs[i].score == 0.0
  {
    if n == 0 {
    } else {
      ScoresAddUp(subs, n - 1);
    }
  }

  lemma ShareIsNotNegative(score: real, total: real, pool: real)
    requires score >= 0.0 && total > 0.0 && pool > 0.0
    ensures Share(score, total, pool) >= 0.0
  {
    assert score / total >= 0.0;
  }

  /** What the first `n` lose to flooring: some, but less than a micro-unit each. */
  lemma {:induction false} FloorsTrailShares(payouts: seq<Payout>, subs: seq<Submission>, pool: real, n: nat)
    requires TotalScore(subs, |subs|) != 0.0 && Pays(payouts, subs, pool) && n < |subs|
    ensures
      var loss := SumOfShares(subs, n, TotalScore(subs, |subs|), pool) - SumOfRewards(payouts, n);
      0.0 <= loss && (n == 0 ==> loss == 0.0) && (n > 0 ==> loss < n as real / MICRO)
  {
    hide Share, FloorToMicro, TotalScore;
    if n == 0 {
    } else {
      FloorsTrailShares(payouts, subs, pool, n - 1);
      assert PaysAt(payouts, subs, pool, n - 1);
      FloorLosesLessThanAMicroUnit(Share(subs[n - 1].score, TotalScore(subs, |subs|), pool));
      assert n as real / MICRO == (n - 1) as real / MICRO + 1.0 / MICRO;
    }
  }

  // ---- What a distribution guarantees ----

  predicate AllValid(subs: seq<Submission>) {
    forall i :: 0 <= i < |subs| ==> ValidScore(subs[i].score)
  }

  /** The rewards add up to the pool, exactly. */
  lemma {:induction false} RewardsSumToThePool(payouts: seq<Payout>, subs: seq<Submission>, pool: real)
    requires TotalScore(subs, |subs|) != 0.0 && Pays(payouts, subs, pool)
    ensures SumOfRewards(payouts, |payouts|) == pool
  {
    hide Share, FloorToMicro;
    TotalOfNobody(subs);
    assert PaysAt(payouts, subs, pool, |subs| - 1);
  }

  lemma TotalOfNobody(subs: seq<Submission>)
    ensures TotalScore(subs, |subs|) != 0.0 ==> subs != []
  {
  }

  /** Every reward but the last is its exact share, floored: within a micro-unit below it and never negative. */
  lemma RewardsAreFloors(payouts: seq<Payout>, subs: seq<Submission>, pool: real, i: nat)
    requires TotalScore(subs, |subs|) != 0.0 && Pays(payouts, subs, pool)
    requires pool > 0.0 && AllValid(subs) && i < |subs| - 1
    ensures
      var share := Share(subs[i].score, TotalScore(subs, |subs|), pool);
      0.0 <= share - payouts[i].reward < 1.0 / MICRO && payouts[i].reward >= 0.0
  {
    hide TotalScore, FloorToMicro, Share;
    assert PaysAt(payouts, subs, pool, i);
    ScoresAddUp(subs, |subs|);
    ShareIsNotNegative(subs[i].score, TotalScore(subs, |subs|), pool);
    FloorLosesLessThanAMicroUnit(Share(subs[i].score, TotalScore(subs, |subs|), pool));
  }

  /** The last gets at least its share, and the others' dust: less than a micro-unit for each of them. */
  lemma {:induction false} LastTakesTheDust(payouts: seq<Payout>, subs: seq<Submission>, pool: real)
    requires TotalScore(subs, |subs|) != 0.0 && Pays(payouts, subs, pool) && pool > 0.0 && AllValid(subs)
    ensures
      var n := |subs|;
      var excess := payouts[n - 1].reward - Share(subs[n - 1].score, TotalScore(subs, n), pool);
      && 0.0 <= excess && (n == 1 ==> excess == 0.0) && (n > 1 ==> excess < (n - 1) as real / MICRO)
      && payouts[n - 1].reward >= 0.0
  {
    hide Share, FloorToMicro, TotalScore, SumOfRewards;
    TotalOfNobody(subs);
    var n, total := |subs|, TotalScore(subs, |subs|);
    assert PaysAt(payouts, subs, pool, n - 1);
    ScoresAddUp(subs, n);
    SharesAddUpToThePool(subs, pool);
    FloorsTrailShares(payouts, subs, pool, n - 1);
    ShareIsNotNegative(subs[n - 1].score, total, pool);
  }

  lemma SharesAddUpToThePool(subs: seq<Submission>, pool: real)
    requires TotalScore(subs, |subs|) != 0.0
    ensures SumOfShares(subs, |subs|, TotalScore(subs, |subs|), pool) == pool
  {
    hide Share, TotalScore, SumOfShares;
    SharesAreProportional(subs, |subs|, TotalScore(subs, |subs|), pool);
  }

  function SumOfWeights(payouts: seq<Payout>, n: nat): real
    requires n <= |payouts|
  {
    if n == 0 then 0.0 else SumOfWeights(payouts, n - 1) + payouts[n - 1].normalizedWeight
  }

  /** The normalised weights of an epoch add up to one. */
  lemma WeightsSumToOne(payouts: seq<Payout>, subs: seq<Submission>, pool: real)
    requires TotalScore(subs, |subs|) != 0.0 && Pays(payouts, subs, pool)
    ensures SumOfWeights(payouts, |payouts|) == 1.0
  {
    hide TotalScore, SumOfWeights, SumOfShares;
    WeightsAreShares(payouts, subs, pool, |subs|);
    SharesAddUpToThePool(subs, 1.0);
  }

  /** A weight is the share of a pool of one. */
  lemma {:induction false} WeightsAreShares(payouts: seq<Payout>, subs: seq<Submission>, pool: real, n: nat)
    requires TotalScore(subs, |subs|) != 0.0 && Pays(payouts, subs, pool) && n <= |subs|
    ensures SumOfWeights(payouts, n) == SumOfShares(subs, n, TotalScore(subs, |subs|), 1.0)
  {
    hide TotalScore, FloorToMicro;
    if n == 0 {
    } else {
      WeightsAreShares(payouts, subs, pool, n - 1);
      assert PaysAt(payouts, subs, pool, n - 1);
    }
  }

  // ---- Submission order ----

  /** Neither comes before the other: actors that compare equal, and jobs that do. */
  predicate Tie(x: Submission, y: Submission, le: Collation) {
    le(x.actor, y.actor) && le(y.actor, x.actor) && le(x.jobId, y.jobId) && le(y.jobId, x.jobId)
  }

  ghost predicate NoTies(subs: seq<Submission>, le: Collation) {
    forall x, y :: x in subs && y in subs && Tie(x, y, le) ==> x == y
  }

  /** Ties are what the sort does not order. */
  lemma TieIff(x: Submission, y: Submission, le: Collation)
    requires TotalPreorder(le)
    ensures Tie(x, y, le) <==> InOrder(x, y, le) && InOrder(y, x, le)
  {
  }

  lemma InOrderIsATotalPreorder(le: Collation)
    requires TotalPreorder(le)
    ensures TotalPreorder((a, b) => InOrder(a, b, le))
  {
  }

  /** Payouts do not depend on the order of submission, as long as no two entries compare equal by actor and job. */
  lemma OrderDoesNotMatter(a: seq<Submission>, b: seq<Submission>, pool: real, le: Collation,
                           paidA: seq<Payout>, paidB: seq<Payout>)
    requires TotalPreorder(le) && multiset(a) == multiset(b) && NoTies(a, le)
    requires
      var subs := Sorted(a, le);
      TotalScore(subs, |subs|) != 0.0 && Pays(paidA, subs, pool)
    ensures Sorted(a, le) == Sorted(b, le)
    ensures Pays(paidB, Sorted(b, le), pool) ==> paidA == paidB
  {
    SameOrder(a, b, le);
    if Pays(paidB, Sorted(b, le), pool) { PaysIsUnique(paidA, paidB, Sorted(a, le), Sorted(b, le), pool, |paidA|); }
  }

  lemma SameOrder(a: seq<Submission>, b: seq<Submission>, le: Collation)
    requires TotalPreorder(le) && multiset(a) == multiset(b) && NoTies(a, le)
    ensures Sorted(a, le) == Sorted(b, le)
  {
    hide Sorted, Tie, InOrder;
    var order := (x: Submission, y: Submission) => InOrder(x, y, le);
    var p, q := Sorted(a, le), Sorted(b, le);
    InOrderIsATotalPreorder(le);
    SortedElements(a, le);
    SortedElements(b, le);
    forall x, y | x in p && y in p && order(x, y) && order(y, x) ensures x == y {
      TieIff(x, y, le);
    }
    OrderedIsUnique(p, q, order);
  }

  /** What is paid depends on the entries of the sorted submissions alone. */
  lemma {:induction false} PaysIsUnique(p: seq<Payout>, q: seq<Payout>, s: seq<Submission>, t: seq<Submission>,
                                        pool: real, n: nat)
    requires Submitted(s) == Submitted(t) && n <= |s| == |t|
    requires TotalScore(s, |s|) == TotalScore(t, |t|) != 0.0 && Pays(p, s, pool) && Pays(q, t, pool)
    ensures p[..n] == q[..n] && SumOfRewards(p, n) == SumOfRewards(q, n)
  {
    hide Share, FloorToMicro, TotalScore;
    if n == 0 {
    } else {
      PaysIsUnique(p, q, s, t, pool, n - 1);
      assert Submitted(s)[n - 1] == Submitted(t)[n - 1];
      assert PaysAt(p, s, pool, n - 1) && PaysAt(q, t, pool, n - 1);
      assert p[..n] == p[..n - 1] + [p[n - 1]] && q[..n] == q[..n - 1] + [q[n - 1]];
    }
  }

  lemma {:induction false} SameTotals(s: seq<Submission>, t: seq<Submission>, n: nat)
    requires Submitted(s) == Submitted(t) && n <= |s| && n <= |t|
    ensures TotalScore(s, n) == TotalScore(t, n)
  {
    if n == 0 {
    } else {
      SameTotals(s, t, n - 1);
      assert Submitted(s)[n - 1] == Submitted(t)[n - 1];
    }
  }

  /** What a distribution of these submissions pays. */
  ghost predicate PaysOut(payouts: seq<Payout>, subs: seq<Submission>, pool: real, le: Collation) {
    var sorted := Sorted(subs, le);
    if TotalScore(sorted, |sorted|) == 0.0 then payouts == [] else Pays(payouts, sorted, pool)
  }

  /** The same submissions in any other order are paid the same. */
  ghost predicate PaidTheSameInAnyOrder(subs: seq<Submission>, pool: real, le: Collation) {
    forall other, p, q ::
      multiset(other) == multiset(subs) && PaysOut(p, subs, pool, le) && PaysOut(q, other, pool, le) ==> p == q
  }

  /** Entries that compare equal have the same actor, job and score. */
  ghost predicate HarmlessTies(subs: seq<Submission>, le: Collation) {
    forall x, y :: x in subs && y in subs && Tie(x, y, le) ==> EntryOf(x) == EntryOf(y)
  }

  predicate NobodyScores(subs: seq<Submission>) {
    forall i :: 0 <= i < |subs| ==> subs[i].score == 0.0
  }

  /**
   Payouts do not depend on the order of submission exactly when entries that compare equal agree in actor, job
   and score, or there is nothing to pay.
   */
  lemma OrderDoesNotMatterIff(subs: seq<Submission>, pool: real, le: Collation)
    requires TotalPreorder(le) && AllValid(subs)
    ensures PaidTheSameInAnyOrder(subs, pool, le) <==> NobodyScores(subs) || HarmlessTies(subs, le)
  {
    hide PaysOut, AllValid, NobodyScores, HarmlessTies;
    if NobodyScores(subs) || HarmlessTies(subs, le) {
      forall other, p, q | multiset(other) == multiset(subs) && PaysOut(p, subs, pool, le)
          && PaysOut(q, other, pool, le)
        ensures p == q
      {
        PaidAlike(subs, other, p, q, pool, le);
      }
    } else {
      var one, other := TieEitherWay(subs, le);
      var paid := SomethingIsPaid(subs, pool, le);
      var paidOne := SomethingIsPaid(one, pool, le);
      var paidOther := SomethingIsPaid(other, pool, le);
      TieIsPaidInTurn(subs, one, other, paidOne, paidOther, pool, le);
    }
  }

  lemma SortedElements(subs: seq<Submission>, le: Collation)
    ensures multiset(Sorted(subs, le)) == multiset(subs)
    ensures forall x :: x in Sorted(subs, le) <==> x in subs
    ensures TotalPreorder(le) ==> Ordered(Sorted(subs, le), (a, b) => InOrder(a, b, le))
  {
    hide Sort, Ordered;
    SortElements(subs, (a, b) => InOrder(a, b, le));
    SortMembers(subs, (a, b) => InOrder(a, b, le));
    if TotalPreorder(le) {
      InOrderIsATotalPreorder(le);
      SortOrdered(subs, (a, b) => InOrder(a, b, le));
    }
  }

  lemma NothingToPayIff(subs: seq<Submission>, other: seq<Submission>, le: Collation)
    requires AllValid(subs) && multiset(other) == multiset(subs)
    ensures TotalScore(Sorted(other, le), |other|) == 0.0 <==> NobodyScores(subs)
  {
    hide Sorted, TotalScore;
    var sorted := Sorted(other, le);
    SortedElements(other, le);
    forall i | 0 <= i < |sorted| ensures sorted[i] in subs { assert sorted[i] in multiset(sorted); }
    forall i | 0 <= i < |subs| ensures subs[i] in sorted { assert subs[i] in multiset(subs); }
    ScoresAddUp(sorted, |sorted|);
  }

  lemma PaidAlike(subs: seq<Submission>, other: seq<Submission>, p: seq<Payout>, q: seq<Payout>, pool: real,
      le: Collation)
    requires TotalPreorder(le) && AllValid(subs) && multiset(other) == multiset(subs)
    requires PaysOut(p, subs, pool, le) && PaysOut(q, other, pool, le)
    requires NobodyScores(subs) || HarmlessTies(subs, le)
    ensures p == q
  {
    hide Sorted, TotalScore, PaysAt, HarmlessTies, NobodyScores;
    NothingToPayIff(subs, subs, le);
    NothingToPayIff(subs, other, le);
    if !NobodyScores(subs) {
      SameEntriesInOrder(subs, other, le);
      SameTotals(Sorted(subs, le), Sorted(other, le), |subs|);
      PaysIsUnique(p, q, Sorted(subs, le), Sorted(other, le), pool, |subs|);
    }
  }

  lemma SameEntriesInOrder(a: seq<Submission>, b: seq<Submission>, le: Collation)
    requires TotalPreorder(le) && multiset(a) == multiset(b) && HarmlessTies(a, le)
    ensures |a| == |b| && Submitted(Sorted(a, le)) == Submitted(Sorted(b, le))
  {
    hide Sorted;
    var order := (x: Entry, y: Entry) => Precedes(x, y, le);
    var p, q := Sorted(a, le), Sorted(b, le);
    SortedElements(a, le);
    SortedElements(b, le);
    SubmittedInAnyOrder(p, q);
    EntriesAreOrdered(p, le);
    EntriesAreOrdered(q, le);
    forall x, y | x in Submitted(p) && y in Submitted(p) && order(x, y) && order(y, x) ensures x == y {
      var i :| 0 <= i < |p| && Submitted(p)[i] == x;
      var j :| 0 <= j < |p| && Submitted(p)[j] == y;
      assert Tie(p[i], p[j], le);
    }
    assert |a| == |multiset(a)| == |multiset(b)| == |b|;
    OrderedIsUnique(Submitted(p), Submitted(q), order);
  }

  lemma EntriesAreOrdered(subs: seq<Submission>, le: Collation)
    requires Ordered(subs, (a, b) => InOrder(a, b, le))
    ensures Ordered(Submitted(subs), (x, y) => Precedes(x, y, le))
  {
    hide Precedes;
  }

  function TiedTo(x: Submission, le: Collation): Submission -> bool {
    z => Tie(z, x, le)
  }

  /** The same submissions twice, beginning with a tie one way round and the other. */
  lemma TieEitherWay(subs: seq<Submission>, le: Collation) returns (one: seq<Submission>, other: seq<Submission>)
    requires !HarmlessTies(subs, le)
    ensures multiset(one) == multiset(subs) == multiset(other) && one != [] && other != []
    ensures Tie(other[0], one[0], le) && EntryOf(one[0]) != EntryOf(other[0])
  {
    hide Tie, EntryOf;
    var x, y :| x in subs && y in subs && Tie(x, y, le) && EntryOf(x) != EntryOf(y);
    one := BroughtToFront(subs, y);
    other := BroughtToFront(subs, x);
  }

  lemma BroughtToFront(subs: seq<Submission>, x: Submission) returns (r: seq<Submission>)
    requires x in subs
    ensures r != [] && r[0] == x && multiset(r) == multiset(subs)
  {
    assert x in multiset(subs);
    var i := TakeOut(subs, x);
    r := [x] + (subs[..i] + subs[i + 1..]);
  }

  lemma FirstOfTheTied(subs: seq<Submission>, x: Submission, le: Collation)
    requires TotalPreorder(le) && subs != [] && Tie(subs[0], x, le)
    ensures
      var tied := Filter(Sorted(subs, le), TiedTo(x, le));
      tied != [] && tied[0] == subs[0]
  {
    hide Sort;
    InOrderIsATotalPreorder(le);
    SortIsStable(subs, (a, b) => InOrder(a, b, le), TiedTo(x, le));
  }

  lemma {:induction false} SameTied(s: seq<Submission>, t: seq<Submission>, x: Submission, le: Collation)
    requires Submitted(s) == Submitted(t)
    ensures Submitted(Filter(s, TiedTo(x, le))) == Submitted(Filter(t, TiedTo(x, le)))
  {
    assert |s| == |Submitted(s)| == |Submitted(t)| == |t|;
    if s == [] {
      assert t == [];
    } else {
      assert Submitted(s[1..]) == Submitted(s)[1..] && Submitted(t[1..]) == Submitted(t)[1..];
      SameTied(s[1..], t[1..], x, le);
      assert EntryOf(s[0]) == Submitted(s)[0] == Submitted(t)[0] == EntryOf(t[0]);
      var p := TiedTo(x, le);
      assert p(s[0]) == p(t[0]);
      SubmittedConcat(if p(s[0]) then [s[0]] else [], Filter(s[1..], p));
      SubmittedConcat(if p(t[0]) then [t[0]] else [], Filter(t[1..], p));
    }
  }

  lemma TiedToItself(x: Submission, le: Collation)
    requires TotalPreorder(le)
    ensures Tie(x, x, le)
  {
  }

  /** The first of the tied submissions is listed first. */
  lemma ListedInTurn(one: seq<Submission>, other: seq<Submission>, le: Collation)
    requires TotalPreorder(le) && one != [] && other != [] && Tie(other[0], one[0], le)
    ensures Submitted(Sorted(one, le)) == Submitted(Sorted(other, le)) ==> EntryOf(one[0]) == EntryOf(other[0])
  {
    hide Sorted, Precedes;
    TiedToItself(one[0], le);
    FirstOfTheTied(one, one[0], le);
    FirstOfTheTied(other, one[0], le);
    if Submitted(Sorted(one, le)) == Submitted(Sorted(other, le)) {
      SameTied(Sorted(one, le), Sorted(other, le), one[0], le);
      var p, q := Filter(Sorted(one, le), TiedTo(one[0], le)), Filter(Sorted(other, le), TiedTo(one[0], le));
      assert Submitted(p)[0] == EntryOf(p[0]) && Submitted(q)[0] == EntryOf(q[0]);
    }
  }

  lemma TieIsPaidInTurn(subs: seq<Submission>, one: seq<Submission>, other: seq<Submission>, paidOne: seq<Payout>,
                        paidOther: seq<Payout>, pool: real, le: Collation)
    requires TotalPreorder(le) && AllValid(subs) && !NobodyScores(subs)
    requires multiset(one) == multiset(subs) == multiset(other) && one != [] && other != []
    requires Tie(other[0], one[0], le) && EntryOf(one[0]) != EntryOf(other[0])
    requires PaysOut(paidOne, one, pool, le) && PaysOut(paidOther, other, pool, le)
    ensures paidOne != paidOther
  {
    hide Sorted, TotalScore, Pays, Submitted, Tie, PaidOut, AllValid, NobodyScores;
    NothingToPayIff(subs, one, le);
    NothingToPayIff(subs, other, le);
    PaysTheListed(paidOne, Sorted(one, le), pool);
    PaysTheListed(paidOther, Sorted(other, le), pool);
    ListedInTurn(one, other, le);
  }

  lemma SomethingIsPaid(subs: seq<Submission>, pool: real, le: Collation) returns (payouts: seq<Payout>)
    ensures PaysOut(payouts, subs, pool, le)
  {
    hide Sorted, TotalScore, Pays;
    var sorted := Sorted(subs, le);
    payouts := [];
    if TotalScore(sorted, |sorted|) != 0.0 {
      payouts := PaidSoFar(sorted, TotalScore(sorted, |sorted|), pool, |sorted|);
      PaidInFull(payouts, sorted, pool);
    }
  }

  lemma {:induction false} PaidSoFar(subs: seq<Submission>, total: real, pool: real, n: nat)
      returns (payouts: seq<Payout>)
    requires total != 0.0 && n <= |subs|
    ensures |payouts| == n && forall j :: 0 <= j < n ==> PaidAt(payouts, subs, total, pool, j)
  {
    hide FloorToMicro, Share, SumOfRewards;
    if n == 0 {
      payouts := [];
    } else {
      var s := subs[n - 1];
      var before := PaidSoFar(subs, total, pool, n - 1);
      var reward :=
        if n == |subs| then pool - SumOfRewards(before, n - 1) else FloorToMicro(Share(s.score, total, pool));
      payouts := before + [Payout(s.actor, s.jobId, s.score, s.score / total, reward)];
      PaidNext(before, payouts, subs, total, pool);
    }
  }

  // ---- Everyone is paid ----

  lemma SubmittedConcat(a: seq<Submission>, b: seq<Submission>)
    ensures Submitted(a + b) == Submitted(a) + Submitted(b)
  {
  }

  lemma SubmittedWithout(a: seq<Submission>, x: Submission, b: seq<Submission>)
    ensures multiset(Submitted(a + [x] + b)) == multiset(Submitted([x])) + multiset(Submitted(a + b))
  {
    SubmittedConcat(a + [x], b);
    SubmittedConcat(a, [x]);
    SubmittedConcat(a, b);
    hide Submitted;
  }

  lemma TakeOut(s: seq<Submission>, x: Submission) returns (i: nat)
    requires x in multiset(s)
    ensures i < |s| && s == s[..i] + [x] + s[i + 1..]
    ensures multiset(s[..i] + s[i + 1..]) == multiset(s) - multiset{x}
  {
    i :| 0 <= i < |s| && s[i] == x;
    assert s == s[..i] + [x] + s[i + 1..];
  }

  lemma {:induction false} SubmittedInAnyOrder(a: seq<Submission>, b: seq<Submission>)
    requires multiset(a) == multiset(b)
    ensures multiset(Submitted(a)) == multiset(Submitted(b))
    decreases |a|
  {
    if a == [] {
      assert |b| == |multiset(b)| == 0;
    } else {
      assert a[0] in multiset(a);
      var i := TakeOut(a, a[0]);
      var j := TakeOut(b, a[0]);
      SubmittedInAnyOrder(a[..i] + a[i + 1..], b[..j] + b[j + 1..]);
      SubmittedWithout(a[..i], a[0], a[i + 1..]);
      SubmittedWithout(b[..j], a[0], b[j + 1..]);
    }
  }

  lemma PaysTheListed(payouts: seq<Payout>, subs: seq<Submission>, pool: real)
    requires TotalScore(subs, |subs|) != 0.0 && Pays(payouts, subs, pool)
    ensures PaidOut(payouts) == Submitted(subs)
  {
    hide Share, FloorToMicro, TotalScore, SumOfRewards;
    forall i | 0 <= i < |subs| ensures PaidOut(payouts)[i] == EntryOf(subs[i]) {
      assert PaysAt(payouts, subs, pool, i);
    }
  }

  /** Payouts come in the order of their actors, and of their jobs where the actors compare equal. */
  lemma PaidInOrder(payouts: seq<Payout>, subs: seq<Submission>, pool: real, le: Collation, i: nat, j: nat)
    requires TotalPreorder(le) && TotalScore(Sorted(subs, le), |subs|) != 0.0 && Pays(payouts, Sorted(subs, le), pool)
    requires i < j < |payouts|
    ensures le(payouts[i].actor, payouts[j].actor)
    ensures le(payouts[j].actor, payouts[i].actor) ==> le(payouts[i].jobId, payouts[j].jobId)
  {
    hide Sorted, TotalScore, PaysAt, SumOfRewards;
    var sorted := Sorted(subs, le);
    SortedElements(subs, le);
    PaysTheListed(payouts, sorted, pool);
    assert InOrder(sorted[i], sorted[j], le);
    assert PaidOut(payouts)[i] == EntryOf(sorted[i]) && PaidOut(payouts)[j] == EntryOf(sorted[j]);
  }

  /** Every submission of the epoch is paid exactly once, and nobody else is. */
  lemma EverySubmissionIsPaidOnce(payouts: seq<Payout>, subs: seq<Submission>, pool: real, le: Collation)
    requires TotalScore(Sorted(subs, le), |subs|) != 0.0 && Pays(payouts, Sorted(subs, le), pool)
    ensures multiset(PaidOut(payouts)) == multiset(Submitted(subs))
  {
    hide Share, FloorToMicro, TotalScore, SumOfRewards, PaysAt, Pays, Sort;
    SortElements(subs, (a, b) => InOrder(a, b, le));
    SubmittedInAnyOrder(Sorted(subs, le), subs);
    PaysTheListed(payouts, Sorted(subs, le), pool);
  }
}
