/** When the REM cycle runs (omokoda-core/src/dream.rs): on the Sabbath, once a UTC day, or when overdue. */
module RemSchedule {

  const SECONDS_PER_DAY := 86_400

  function Day(now: nat): nat { now / SECONDS_PER_DAY }

  /** 1970-01-01 was a Thursday; 6 is Saturday. */
  predicate SabbathDay(day: nat) { (day + 4) % 7 == 6 }

  predicate IsSabbathAt(now: nat) { SabbathDay(Day(now)) }

  /** The first Saturday began two days into the epoch, and one has begun every seven days since. */
  function SaturdayBegins(week: nat): nat { 172_800 + 604_800 * week }

  lemma SabbathIff(now: nat)
    ensures IsSabbathAt(now) <==> exists week: nat :: SaturdayBegins(week) <= now < SaturdayBegins(week) + 86_400
  {
    if IsSabbathAt(now) {
      var week := (Day(now) - 2) / 7;
      assert SaturdayBegins(week) <= now < SaturdayBegins(week) + 86_400;
    }
    forall week: nat | SaturdayBegins(week) <= now < SaturdayBegins(week) + 86_400 ensures IsSabbathAt(now) {
      assert Day(now) == 7 * week + 2;
    }
  }

  datatype LastRem = Never | At(time: nat)

  function ElapsedSince(last: nat, now: nat): nat {
    if now < last then 0 else now - last
  }

  predicate ShouldRem(last: LastRem, now: nat, overdueAfter: nat) {
    || (last.At? && ElapsedSince(last.time, now) >= overdueAfter)
    || (IsSabbathAt(now) && (last.Never? || Day(now) > Day(last.time)))
  }

  /** The engine's `last_rem` after the first `n` polls. */
  function LastAfter(polls: seq<nat>, overdueAfter: nat, n: nat): LastRem
    requires n <= |polls|
  {
    if n == 0 then Never
    else
      var last := LastAfter(polls, overdueAfter, n - 1);
      if ShouldRem(last, polls[n - 1], overdueAfter) then At(polls[n - 1]) else last
  }

  predicate RunsAt(polls: seq<nat>, overdueAfter: nat, i: nat)
    requires i < |polls|
  {
    ShouldRem(LastAfter(polls, overdueAfter, i), polls[i], overdueAfter)
  }

  ghost predicate InOrder(polls: seq<nat>) {
    forall i, j :: 0 <= i <= j < |polls| ==> polls[i] <= polls[j]
  }

  ghost predicate NoRunBetween(polls: seq<nat>, overdueAfter: nat, i: nat, j: nat)
    requires j <= |polls|
  {
    forall k :: i < k < j ==> !RunsAt(polls, overdueAfter, k)
  }

  /** `last_rem` is the time of the latest run, if there was one. */
  lemma {:induction false} LastIsLatestRun(polls: seq<nat>, overdueAfter: nat, n: nat) returns (i: nat)
    requires n <= |polls|
    ensures LastAfter(polls, overdueAfter, n).Never? ==> forall k :: 0 <= k < n ==> !RunsAt(polls, overdueAfter, k)
    ensures LastAfter(polls, overdueAfter, n).At? ==>
              && i < n && RunsAt(polls, overdueAfter, i)
              && LastAfter(polls, overdueAfter, n).time == polls[i]
              && NoRunBetween(polls, overdueAfter, i, n)
  {
    i := 0;
    if n == 0 {
    } else {
      hide ShouldRem;
      i := LastIsLatestRun(polls, overdueAfter, n - 1);
      if RunsAt(polls, overdueAfter, n - 1) {
        i := n - 1;
      }
    }
  }

  /** A run at `i` leaves every later state with a last run at `i` or later. */
  lemma {:induction false} LaterLast(polls: seq<nat>, overdueAfter: nat, i: nat, n: nat)
    requires i < n <= |polls| && RunsAt(polls, overdueAfter, i) && InOrder(polls)
    ensures LastAfter(polls, overdueAfter, n).At?
    ensures polls[i] <= LastAfter(polls, overdueAfter, n).time <= polls[n - 1]
    ensures NoRunBetween(polls, overdueAfter, i, n) ==> LastAfter(polls, overdueAfter, n).time == polls[i]
  {
    hide ShouldRem;
    assert polls[i] <= polls[n - 1];
    if n == i + 1 {
      assert RunsAt(polls, overdueAfter, n - 1);
    } else {
      LaterLast(polls, overdueAfter, i, n - 1);
      assert polls[n - 2] <= polls[n - 1];
      if RunsAt(polls, overdueAfter, n - 1) {
        assert !NoRunBetween(polls, overdueAfter, i, n);
      }
    }
  }

  /** With a positive limit a run comes later than the last one, even when the clock has gone back in between. */
  lemma RunsLaterThanLast(last: LastRem, now: nat, overdueAfter: nat)
    requires overdueAfter >= 1 && last.At? && ShouldRem(last, now, overdueAfter)
    ensures last.time < now
  {
  }

  lemma {:induction false} LastIsAfterEarlierRuns(polls: seq<nat>, overdueAfter: nat, i: nat, n: nat)
    requires overdueAfter >= 1 && i < n <= |polls| && RunsAt(polls, overdueAfter, i)
    ensures LastAfter(polls, overdueAfter, n).At? && polls[i] <= LastAfter(polls, overdueAfter, n).time
  {
    hide ShouldRem;
    if n == i + 1 {
      assert RunsAt(polls, overdueAfter, n - 1);
    } else {
      LastIsAfterEarlierRuns(polls, overdueAfter, i, n - 1);
      var last := LastAfter(polls, overdueAfter, n - 1);
      if RunsAt(polls, overdueAfter, n - 1) { RunsLaterThanLast(last, polls[n - 1], overdueAfter); }
    }
  }

  /**
   Runs come at strictly increasing times, over all polls at any times, exactly when the overdue limit is
   positive.
   */
  lemma RunsIncreaseIff(overdueAfter: nat)
    ensures (forall polls: seq<nat>, i: nat, j: nat ::
               i < j < |polls| && RunsAt(polls, overdueAfter, i) && RunsAt(polls, overdueAfter, j) ==>
                 polls[i] < polls[j])
       <==> overdueAfter >= 1
  {
    hide ShouldRem;
    if overdueAfter >= 1 {
      forall polls: seq<nat>, i: nat, j: nat
        | i < j < |polls| && RunsAt(polls, overdueAfter, i) && RunsAt(polls, overdueAfter, j)
        ensures polls[i] < polls[j]
      {
        LastIsAfterEarlierRuns(polls, overdueAfter, i, j);
        RunsLaterThanLast(LastAfter(polls, overdueAfter, j), polls[j], overdueAfter);
      }
    } else {
      RunsTwiceInASecond();
    }
  }

  lemma RunsTwiceInASecond()
    ensures
      var polls := [2 * SECONDS_PER_DAY, 2 * SECONDS_PER_DAY];
      RunsAt(polls, 0, 0) && RunsAt(polls, 0, 1)
  {
    RunsAtExactlyTheLimit(0);
    assert 2 * SECONDS_PER_DAY + 0 == 2 * SECONDS_PER_DAY;
  }

  ghost predicate OncePerDay(polls: seq<nat>, overdueAfter: nat) {
    forall i, j :: 0 <= i < j < |polls| && RunsAt(polls, overdueAfter, i) && RunsAt(polls, overdueAfter, j)
      ==> Day(polls[i]) < Day(polls[j])
  }

  lemma RunStartsNewDay(polls: seq<nat>, overdueAfter: nat, i: nat, j: nat)
    requires InOrder(polls) && overdueAfter >= SECONDS_PER_DAY
    requires i < j < |polls| && RunsAt(polls, overdueAfter, i) && RunsAt(polls, overdueAfter, j)
    ensures Day(polls[i]) < Day(polls[j])
  {
    LaterLast(polls, overdueAfter, i, j);
    var last := LastAfter(polls, overdueAfter, j).time;
    assert polls[j - 1] <= polls[j];
    assert Day(polls[i]) <= Day(last);
    if ElapsedSince(last, polls[j]) >= overdueAfter {
      assert polls[j] >= last + SECONDS_PER_DAY;
    }
  }

  /** REM runs at most once per UTC day over every run of polls exactly when the overdue limit is a day or more. */
  lemma OncePerDayIffLimitIsADay(overdueAfter: nat)
    ensures (forall polls :: InOrder(polls) ==> OncePerDay(polls, overdueAfter))
       <==> overdueAfter >= SECONDS_PER_DAY
  {
    if overdueAfter >= SECONDS_PER_DAY {
      forall polls | InOrder(polls) ensures OncePerDay(polls, overdueAfter) {
        forall i, j | 0 <= i < j < |polls| && RunsAt(polls, overdueAfter, i) && RunsAt(polls, overdueAfter, j)
          ensures Day(polls[i]) < Day(polls[j])
        {
          RunStartsNewDay(polls, overdueAfter, i, j);
        }
      }
    } else {
      var polls := [2 * SECONDS_PER_DAY, 2 * SECONDS_PER_DAY + overdueAfter];
      assert InOrder(polls);
      assert RunsAt(polls, overdueAfter, 0) && RunsAt(polls, overdueAfter, 1);
      assert Day(polls[0]) == Day(polls[1]) == 2;
      assert !OncePerDay(polls, overdueAfter);
    }
  }

  /** Every run is on a Saturday, or at least the overdue limit after the run before it. */
  lemma RunIsSabbathOrOverdue(polls: seq<nat>, overdueAfter: nat, j: nat) returns (i: nat)
    requires j < |polls| && RunsAt(polls, overdueAfter, j)
    ensures IsSabbathAt(polls[j])
         || (i < j && RunsAt(polls, overdueAfter, i) && NoRunBetween(polls, overdueAfter, i, j)
             && ElapsedSince(polls[i], polls[j]) >= overdueAfter)
  {
    i := LastIsLatestRun(polls, overdueAfter, j);
  }

  ghost predicate LatestRun(polls: seq<nat>, overdueAfter: nat, i: nat, j: nat)
    requires j <= |polls|
  {
    i < j && RunsAt(polls, overdueAfter, i) && NoRunBetween(polls, overdueAfter, i, j)
  }

  lemma LatestRunIsLast(polls: seq<nat>, overdueAfter: nat, i: nat, j: nat)
    requires j <= |polls| && LatestRun(polls, overdueAfter, i, j)
    ensures LastAfter(polls, overdueAfter, j) == At(polls[i])
  {
    var k := LastIsLatestRun(polls, overdueAfter, j);
    assert k == i;
  }

  /**
   A poll runs exactly when at least the overdue limit has passed since the latest run, or it is on a Sabbath and
   the latest run, if there was one, was on an earlier day.
   */
  lemma RunsIff(polls: seq<nat>, overdueAfter: nat, j: nat)
    requires j < |polls|
    ensures RunsAt(polls, overdueAfter, j) <==>
      || (exists i: nat :: LatestRun(polls, overdueAfter, i, j) && ElapsedSince(polls[i], polls[j]) >= overdueAfter)
      || (&& IsSabbathAt(polls[j])
          && forall i: nat :: LatestRun(polls, overdueAfter, i, j) ==> Day(polls[i]) < Day(polls[j]))
  {
    var k := LastIsLatestRun(polls, overdueAfter, j);
    if LastAfter(polls, overdueAfter, j).At? { assert LatestRun(polls, overdueAfter, k, j); }
    forall i: nat | LatestRun(polls, overdueAfter, i, j) ensures LastAfter(polls, overdueAfter, j) == At(polls[i]) {
      LatestRunIsLast(polls, overdueAfter, i, j);
    }
  }

  /** Off the Sabbath only a run before it, at least the limit ago, makes a poll run. */
  lemma OffSabbathRunsIff(polls: seq<nat>, overdueAfter: nat, j: nat)
    requires j < |polls| && !IsSabbathAt(polls[j])
    ensures RunsAt(polls, overdueAfter, j)
       <==> exists i: nat :: LatestRun(polls, overdueAfter, i, j) && ElapsedSince(polls[i], polls[j]) >= overdueAfter
  {
    RunsIff(polls, overdueAfter, j);
  }

  /** Exactly the limit is enough: the first Sabbath, and one more poll that much later, on whatever day. */
  lemma RunsAtExactlyTheLimit(overdueAfter: nat)
    ensures
      var polls := [2 * SECONDS_PER_DAY, 2 * SECONDS_PER_DAY + overdueAfter];
      && RunsAt(polls, overdueAfter, 0) && RunsAt(polls, overdueAfter, 1)
      && ElapsedSince(polls[0], polls[1]) == overdueAfter
  {
    var polls := [2 * SECONDS_PER_DAY, 2 * SECONDS_PER_DAY + overdueAfter];
    assert LastAfter(polls, overdueAfter, 1) == At(polls[0]) by {
      assert LastAfter(polls, overdueAfter, 0) == Never;
    }
  }

  /** No polled Sabbath goes by without a run on that day. */
  lemma EverySabbathIsKept(polls: seq<nat>, overdueAfter: nat, k: nat) returns (i: nat)
    requires InOrder(polls) && k < |polls| && IsSabbathAt(polls[k])
    ensures i <= k && RunsAt(polls, overdueAfter, i) && Day(polls[i]) == Day(polls[k])
  {
    i := k;
    if !RunsAt(polls, overdueAfter, k) {
      i := LastIsLatestRun(polls, overdueAfter, k);
      assert polls[i] <= polls[k];
    }
  }

  ghost predicate PolledOn(polls: seq<nat>, i: nat, j: nat, day: nat)
    requires j < |polls|
  {
    exists k :: i <= k <= j && Day(polls[k]) == day
  }

  ghost predicate PolledEveryDay(polls: seq<nat>) {
    forall i: nat, j: nat, day: nat ::
      i < j < |polls| && Day(polls[i]) <= day <= Day(polls[j]) ==> PolledOn(polls, i, j, day)
  }

  function NextSabbath(day: nat): (s: nat)
    ensures SabbathDay(s) && day < s <= day + 7
  {
    var weekday := (day + 4) % 7;
    day + (if weekday == 6 then 7 else 6 - weekday)
  }

  /** Polled every UTC day, consecutive runs are at most seven day numbers apart. */
  lemma RunsAtMostAWeekApart(polls: seq<nat>, overdueAfter: nat, i: nat, j: nat)
    requires InOrder(polls) && PolledEveryDay(polls)
    requires i < j < |polls| && RunsAt(polls, overdueAfter, i) && RunsAt(polls, overdueAfter, j)
    requires NoRunBetween(polls, overdueAfter, i, j)
    ensures Day(polls[j]) <= Day(polls[i]) + 7
  {
    if Day(polls[j]) > Day(polls[i]) + 7 {
      var sabbath := NextSabbath(Day(polls[i]));
      assert PolledOn(polls, i, j, sabbath);
      var k :| i <= k <= j && Day(polls[k]) == sabbath;
      var kept := EverySabbathIsKept(polls, overdueAfter, k);
    }
  }
}
