/**
 The payout engine over its whole life (aether-veilsim/engine.js): submissions and distributions in any order. Everyone
 accepted is paid exactly once or still pending, and every pool distributed is paid out in full.
 */
module PayoutRuns {
  import opened StableSort
  import opened Payouts

  datatype Op = Submit(sub: Submission, now: int) | Distribute(pool: real)

  datatype Engine = Engine(epochs: seq<Epoch>, pending: seq<Submission>)

  const NEW := Engine([], [])

  /** What a submission needs: both names, a score from 0 to 1, and a proof. */
  predicate Acceptable(s: Submission) {
    s.actor != "" && s.jobId != "" && 0.0 <= s.score <= 1.0 && s.determinismProof != ""
  }

  /** The submission as it is recorded: stamped with the time of the call unless it brings its own. */
  function Recorded(s: Submission, now: int): Submission {
    if s.timestamp == 0 then s.(timestamp := now) else s
  }

  /** A submission is accepted exactly when it is acceptable; otherwise the first fault is named. */
  lemma AcceptedIff(s: Submission, now: int)
    ensures Checked(s, now) ==
      if Acceptable(s) then SubmitResult.Accepted(Recorded(s, now))
      else if s.actor == "" || s.jobId == "" then MissingIds
      else if s.score < 0.0 || s.score > 1.0 then InvalidScore
      else MissingProof
  {
  }

  /** One operation, as the methods promise it. */
  ghost predicate StepTo(e: Engine, op: Op, e': Engine, le: Collation) {
    match op
    case Submit(sub, now) =>
      var r := Checked(sub, now);
      e' == Engine(e.epochs, e.pending + if r.Accepted? then [r.record] else [])
    case Distribute(pool) =>
      var subs := Sorted(e.pending, le);
      if pool <= 0.0 || TotalScore(subs, |subs|) == 0.0 then e' == e
      else exists payouts ::
        && Pays(payouts, subs, pool)
        && e' == Engine(e.epochs + [Epoch(|e.epochs|, pool, payouts, SumOfRewards(payouts, |payouts|))], [])
  }

  ghost predicate IsRun(states: seq<Engine>, ops: seq<Op>, le: Collation) {
    && |states| == |ops| + 1 && states[0] == NEW
    && forall i :: 0 <= i < |ops| ==> StepTo(states[i], ops[i], states[i + 1], le)
  }

  // ---- Who is paid ----

  /** The submissions accepted by the first `n` operations. */
  function AcceptedBy(ops: seq<Op>, n: nat): seq<Submission>
    requires n <= |ops|
  {
    if n == 0 then []
    else
      AcceptedBy(ops, n - 1)
      + if ops[n - 1].Submit? && Acceptable(ops[n - 1].sub) then [Recorded(ops[n - 1].sub, ops[n - 1].now)] else []
  }

  /** Every entry paid in any epoch. */
  function PaidIn(epochs: seq<Epoch>): multiset<Entry> {
    if epochs == [] then multiset{}
    else PaidIn(epochs[..|epochs| - 1]) + multiset(PaidOut(epochs[|epochs| - 1].payouts))
  }

  lemma PaidInOneMore(epochs: seq<Epoch>, epoch: Epoch)
    ensures PaidIn(epochs + [epoch]) == PaidIn(epochs) + multiset(PaidOut(epoch.payouts))
  {
    assert (epochs + [epoch])[..|epochs|] == epochs;
  }

  /** Over every run each accepted submission has been paid exactly once, or is pending; and nobody else is. */
  lemma {:induction false} AcceptedIsPaidOrPending(states: seq<Engine>, ops: seq<Op>, le: Collation, n: nat)
    requires IsRun(states, ops, le) && n <= |ops|
    ensures multiset(Submitted(AcceptedBy(ops, n)))
         == PaidIn(states[n].epochs) + multiset(Submitted(states[n].pending))
    ensures forall i :: 0 <= i < |states[n].pending| ==> ValidScore(states[n].pending[i].score)
  {
    hide StepTo, Submitted, PaidOut;
    if n == 0 {
      NobodyPaid();
    } else {
      AcceptedIsPaidOrPending(states, ops, le, n - 1);
      assert StepTo(states[n - 1], ops[n - 1], states[n], le);
      hide IsRun, PaidIn;
      PaidStep(states[n - 1], ops[n - 1], states[n], le, AcceptedBy(ops, n - 1));
    }
  }

  lemma NobodyPaid()
    ensures multiset(Submitted([])) == multiset{}
  {
  }

  lemma PaidStep(e: Engine, op: Op, e': Engine, le: Collation, accepted: seq<Submission>)
    requires StepTo(e, op, e', le)
    requires multiset(Submitted(accepted)) == PaidIn(e.epochs) + multiset(Submitted(e.pending))
    requires AllValid(e.pending)
    ensures
      var more := accepted + if op.Submit? && Acceptable(op.sub) then [Recorded(op.sub, op.now)] else [];
      multiset(Submitted(more)) == PaidIn(e'.epochs) + multiset(Submitted(e'.pending))
    ensures AllValid(e'.pending)
  {
    hide Submitted, Sorted, PaidIn, Pays, PaidOut;
    match op {
      case Submit(sub, now) =>
        AcceptedIff(sub, now);
        var one := if Acceptable(sub) then [Recorded(sub, now)] else [];
        SubmittedConcat(accepted, one);
        SubmittedConcat(e.pending, one);
      case Distribute(pool) =>
        assert accepted + [] == accepted;
        if e' != e {
          EpochPays(e, pool, e', le);
          NobodyPaid();
        }
    }
  }

  lemma EpochPays(e: Engine, pool: real, e': Engine, le: Collation)
    requires StepTo(e, Distribute(pool), e', le) && e' != e
    ensures e'.pending == [] && PaidIn(e'.epochs) == PaidIn(e.epochs) + multiset(Submitted(e.pending))
  {
    hide Submitted, Sorted, PaidIn, PaidOut, Pays, SumOfRewards, TotalScore;
    var subs := Sorted(e.pending, le);
    var payouts :|
      && Pays(payouts, subs, pool)
      && e' == Engine(e.epochs + [Epoch(|e.epochs|, pool, payouts, SumOfRewards(payouts, |payouts|))], []);
    EverySubmissionIsPaidOnce(payouts, e.pending, pool, le);
    PaidInOneMore(e.epochs, e'.epochs[|e.epochs|]);
  }

  // ---- What is paid ----

  function PoolsOf(epochs: seq<Epoch>): real {
    if epochs == [] then 0.0 else PoolsOf(epochs[..|epochs| - 1]) + epochs[|epochs| - 1].pool
  }

  /** All the rewards of all the epochs. */
  function RewardsOf(epochs: seq<Epoch>): real {
    if epochs == [] then 0.0
    else
      var last := epochs[|epochs| - 1];
      RewardsOf(epochs[..|epochs| - 1]) + SumOfRewards(last.payouts, |last.payouts|)
  }

  /** Over every run the rewards paid add up to the pools distributed, epoch by epoch, numbered from zero. */
  lemma {:induction false} PoolsArePaidOut(states: seq<Engine>, ops: seq<Op>, le: Collation, n: nat)
    requires IsRun(states, ops, le) && n <= |ops|
    ensures RewardsOf(states[n].epochs) == PoolsOf(states[n].epochs)
    ensures forall i :: 0 <= i < |states[n].epochs| ==>
      var epoch := states[n].epochs[i];
      epoch.epoch == i && epoch.totalDistributed == epoch.pool > 0.0
  {
    hide StepTo, SumOfRewards;
    if n == 0 {
    } else {
      PoolsArePaidOut(states, ops, le, n - 1);
      assert StepTo(states[n - 1], ops[n - 1], states[n], le);
      hide IsRun, PoolsOf, RewardsOf;
      PoolStep(states[n - 1], ops[n - 1], states[n], le);
    }
  }

  lemma PoolStep(e: Engine, op: Op, e': Engine, le: Collation)
    requires StepTo(e, op, e', le) && RewardsOf(e.epochs) == PoolsOf(e.epochs)
    ensures RewardsOf(e'.epochs) == PoolsOf(e'.epochs)
    ensures e'.epochs == e.epochs || (|e'.epochs| == |e.epochs| + 1 && e.epochs == e'.epochs[..|e.epochs|])
    ensures |e'.epochs| > |e.epochs| ==>
      var epoch := e'.epochs[|e.epochs|];
      epoch.epoch == |e.epochs| && epoch.totalDistributed == epoch.pool > 0.0
  {
    hide Sorted, SumOfRewards, Pays, TotalScore, Checked;
    if op.Distribute? && e' != e {
      var subs := Sorted(e.pending, le);
      var payouts :|
        && Pays(payouts, subs, op.pool)
        && e' == Engine(e.epochs + [Epoch(|e.epochs|, op.pool, payouts, SumOfRewards(payouts, |payouts|))], []);
      RewardsSumToThePool(payouts, subs, op.pool);
      assert e'.epochs[..|e.epochs|] == e.epochs;
    }
  }
}
