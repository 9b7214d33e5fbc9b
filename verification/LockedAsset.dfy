/**
 The unlock schedule of a locked token: remaining epochs per scheduled epoch, with unlocks
 moving to the end of their 30-epoch month, and percentages added up per remaining time.
 Percentages are in thousandths of a percent.
 */
module LockedAsset {

  datatype UnlockMilestone = UnlockMilestone(epoch: int, percent: nat)
  datatype Milestone = Milestone(remainingEpochs: nat, percent: nat)

  const EPOCHS_IN_MONTH := 30
  const PRECISION_EX_INCREASE := 1000

  /** The remainder that has the sign of the dividend. */
  function Remainder(a: int, b: int): int
    requires b > 0
  {
    if a >= 0 then a % b else -((-a) % b)
  }

  function MonthStartEpoch(unlockEpoch: int, initEpoch: int): int {
    unlockEpoch - Remainder(unlockEpoch - initEpoch, EPOCHS_IN_MONTH)
  }

  function RemainingEpochs(unlockEpoch: int, initEpoch: int, currentEpoch: int): int {
    var start := MonthStartEpoch(unlockEpoch, initEpoch);
    if unlockEpoch <= start && unlockEpoch <= currentEpoch then 0 else start + EPOCHS_IN_MONTH - currentEpoch
  }

  function Remaining(unlockEpoch: int, initEpoch: int, currentEpoch: int): nat {
    var r := RemainingEpochs(unlockEpoch, initEpoch, currentEpoch);
    if r > 0 then r else 0
  }

  function Percent(m: UnlockMilestone, withActivationNonce: bool): nat {
    if withActivationNonce then m.percent else m.percent * PRECISION_EX_INCREASE
  }

  // ----- the schedule order -------------------------------------------------------------------

  /** An epoch as its month and the offset in it; before the first epoch months count towards it. */
  lemma MonthBounds(unlockEpoch: int, initEpoch: int)
    ensures var start := MonthStartEpoch(unlockEpoch, initEpoch);
            && (unlockEpoch >= initEpoch ==> initEpoch <= start <= unlockEpoch < start + 30)
            && (unlockEpoch < initEpoch ==> start - 30 < unlockEpoch <= start <= initEpoch)
            && exists q :: start == initEpoch + 30 * q
  {
    var d := unlockEpoch - initEpoch;
    var q := if d >= 0 then d / 30 else -((-d) / 30);
    assert d >= 0 ==> d == 30 * (d / 30) + d % 30;
    assert d < 0 ==> -d == 30 * ((-d) / 30) + (-d) % 30;
    assert MonthStartEpoch(unlockEpoch, initEpoch) == initEpoch + 30 * q;
  }

  lemma MonthsAreOrdered(u: int, v: int, initEpoch: int)
    requires u <= v
    ensures MonthStartEpoch(u, initEpoch) <= MonthStartEpoch(v, initEpoch)
  {
    MonthBounds(u, initEpoch);
    MonthBounds(v, initEpoch);
    var p :| MonthStartEpoch(u, initEpoch) == initEpoch + 30 * p;
    var q :| MonthStartEpoch(v, initEpoch) == initEpoch + 30 * q;
  }

  /** A later unlock never has less time remaining, whatever the first epoch is. */
  lemma LaterUnlocksLater(u: int, v: int, initEpoch: int, currentEpoch: int)
    requires u <= v
    ensures Remaining(u, initEpoch, currentEpoch) <= Remaining(v, initEpoch, currentEpoch)
  {
    MonthsAreOrdered(u, v, initEpoch);
    MonthBounds(u, initEpoch);
    MonthBounds(v, initEpoch);
    var p :| MonthStartEpoch(u, initEpoch) == initEpoch + 30 * p;
    var q :| MonthStartEpoch(v, initEpoch) == initEpoch + 30 * q;
  }

  /** Time remaining never grows as epochs pass. */
  lemma TimePasses(u: int, initEpoch: int, current: int, later: int)
    requires current <= later
    ensures Remaining(u, initEpoch, later) <= Remaining(u, initEpoch, current)
  {
    MonthBounds(u, initEpoch);
  }

  /**
   From the first epoch on: nothing remains exactly once the month is over, or at the epoch itself
   if it starts a month.
   */
  lemma UnlockedExactly(u: int, initEpoch: int, currentEpoch: int)
    requires u >= initEpoch
    ensures Remaining(u, initEpoch, currentEpoch) == 0 <==>
            if (u - initEpoch) % 30 == 0 then u <= currentEpoch else MonthStartEpoch(u, initEpoch) + 30 <= currentEpoch
  {
  }

  /**
   An unlock in the month from epoch `initEpoch + 30 * q` on waits for the end of that month, except
   that the first epoch of the month itself waits no longer once it is reached.
   */
  lemma RemainingExactly(u: int, initEpoch: int, currentEpoch: int, q: nat)
    requires initEpoch + 30 * q <= u < initEpoch + 30 * q + 30
    ensures var end := initEpoch + 30 * q + 30;
            Remaining(u, initEpoch, currentEpoch) ==
              if u == end - 30 <= currentEpoch || end <= currentEpoch then 0 else end - currentEpoch
  {
    assert (u - initEpoch) % 30 == u - initEpoch - 30 * q;
  }

  /**
   An unlock before the first epoch waits no longer once it is reached, and until then for the end of
   the month after the multiple of 30 epochs that follows it.
   */
  lemma RemainingBeforeInit(u: int, initEpoch: int, currentEpoch: int, q: nat)
    requires initEpoch - 30 * q - 30 < u <= initEpoch - 30 * q
    ensures Remaining(u, initEpoch, currentEpoch) ==
              if u <= currentEpoch then 0 else initEpoch - 30 * q + 30 - currentEpoch
  {
    assert (initEpoch - u) % 30 == initEpoch - u - 30 * q;
  }

  // ----- aggregation --------------------------------------------------------------------------

  /** What a schedule unlocks after exactly `r` epochs. */
  function UnlockedAt(
      schedule: seq<UnlockMilestone>, withActivationNonce: bool, initEpoch: int, currentEpoch: int, r: nat): nat {
    if schedule == [] then 0
    else
      var n := |schedule| - 1;
      UnlockedAt(schedule[..n], withActivationNonce, initEpoch, currentEpoch, r)
      + if Remaining(schedule[n].epoch, initEpoch, currentEpoch) ==
          r then Percent(schedule[n], withActivationNonce) else 0
  }

  /** What a schedule unlocks within `horizon` epochs. */
  function UnlockedWithin(
      schedule: seq<UnlockMilestone>, withActivationNonce: bool, initEpoch: int, currentEpoch: int, horizon: int): nat {
    if schedule == [] then 0
    else
      var n := |schedule| - 1;
      UnlockedWithin(schedule[..n], withActivationNonce, initEpoch, currentEpoch, horizon)
      + if Remaining(schedule[n].epoch, initEpoch, currentEpoch) <= horizon then Percent(schedule[n],
            withActivationNonce) else 0
  }

  function TotalPercent(schedule: seq<UnlockMilestone>, withActivationNonce: bool): nat {
    if schedule == [] then 0
    else
      TotalPercent(schedule[..|schedule| - 1], withActivationNonce)
      + Percent(schedule[|schedule| - 1], withActivationNonce)
  }

  function MilestonesWithin(milestones: seq<Milestone>, horizon: int): nat {
    if milestones == [] then 0
    else
      MilestonesWithin(milestones[..|milestones| - 1], horizon)
      + if milestones[|milestones| - 1].remainingEpochs <= horizon then milestones[|milestones| - 1].percent else 0
  }

  function MilestonesTotal(milestones: seq<Milestone>): nat {
    if milestones == [] then 0
    else MilestonesTotal(milestones[..|milestones| - 1]) + milestones[|milestones| - 1].percent
  }

  ghost predicate Occurs(schedule: seq<UnlockMilestone>, initEpoch: int, currentEpoch: int, r: int) {
    exists i :: 0 <= i < |schedule| && Remaining(schedule[i].epoch, initEpoch, currentEpoch) == r
  }

  /** The milestones are the distinct remaining times of the schedule, ascending, each with what it unlocks. */
  ghost predicate Aggregates(
      milestones: seq<Milestone>, schedule: seq<UnlockMilestone>, withActivationNonce: bool, initEpoch: int,
      currentEpoch: int) {
    && (forall i, j :: 0 <= i < j < |milestones| ==> milestones[i].remainingEpochs < milestones[j].remainingEpochs)
    && (forall i :: 0 <= i < |milestones| ==>
          milestones[i].percent ==
            UnlockedAt(schedule, withActivationNonce, initEpoch, currentEpoch, milestones[i].remainingEpochs))
    && forall r: nat :: Occurs(schedule, initEpoch, currentEpoch, r) <==>
         exists i :: 0 <= i < |milestones| && milestones[i].remainingEpochs == r
  }

  /**
   The sum of what a schedule unlocks after exactly `rs[0]`, `rs[1]`, ... epochs, as far as those
   are within the horizon.
   */
  function SumAt(
      rs: seq<nat>, schedule: seq<UnlockMilestone>, withActivationNonce: bool, initEpoch: int, currentEpoch: int,
      horizon: int): nat {
    if rs == [] then 0
    else
      SumAt(rs[..|rs| - 1], schedule, withActivationNonce, initEpoch, currentEpoch, horizon)
      + if rs[|rs| - 1] <= horizon then UnlockedAt(schedule, withActivationNonce, initEpoch, currentEpoch,
            rs[|rs| - 1]) else 0
  }

  lemma {:induction false} SumAtSnoc(
      rs: seq<nat>, schedule: seq<UnlockMilestone>, m: UnlockMilestone, w: bool, init: int, current: int,
      horizon: int)
    requires forall i, j :: 0 <= i < j < |rs| ==> rs[i] != rs[j]
    ensures SumAt(rs, schedule + [m], w, init, current, horizon) == SumAt(rs, schedule, w, init, current, horizon)
            + if Remaining(m.epoch, init, current) in rs &&
              Remaining(m.epoch, init, current) <= horizon then Percent(m, w) else 0
    decreases |rs|
  {
    if rs != [] {
      var n := |rs| - 1;
      assert rs == rs[..n] + [rs[n]];
      SumAtSnoc(rs[..n], schedule, m, w, init, current, horizon);
      assert (schedule + [m])[..|schedule|] == schedule;
    }
  }

  lemma {:induction false} SumAtNothing(rs: seq<nat>, w: bool, init: int, current: int, horizon: int)
    ensures SumAt(rs, [], w, init, current, horizon) == 0
    decreases |rs|
  {
    if rs != [] { SumAtNothing(rs[..|rs| - 1], w, init, current, horizon); }
  }

  lemma {:induction false} SumAtIsWithin(
      rs: seq<nat>, schedule: seq<UnlockMilestone>, w: bool, init: int, current: int, horizon: int)
    requires forall i, j :: 0 <= i < j < |rs| ==> rs[i] != rs[j]
    requires forall i :: 0 <= i < |schedule| ==> Remaining(schedule[i].epoch, init, current) in rs
    ensures SumAt(rs, schedule, w, init, current, horizon) == UnlockedWithin(schedule, w, init, current, horizon)
    decreases |schedule|
  {
    if schedule == [] {
      SumAtNothing(rs, w, init, current, horizon);
    } else {
      var n := |schedule| - 1;
      assert schedule == schedule[..n] + [schedule[n]];
      SumAtIsWithin(rs, schedule[..n], w, init, current, horizon);
      SumAtSnoc(rs, schedule[..n], schedule[n], w, init, current, horizon);
    }
  }

  function Times(milestones: seq<Milestone>): (rs: seq<nat>)
    ensures |rs| == |milestones| && forall i :: 0 <= i < |rs| ==> rs[i] == milestones[i].remainingEpochs
  {
    seq(|milestones|, i requires 0 <= i < |milestones| => milestones[i].remainingEpochs)
  }

  lemma {:induction false} MilestonesSum(
      milestones: seq<Milestone>, schedule: seq<UnlockMilestone>, w: bool, init: int, current: int, horizon: int)
    requires forall i :: 0 <= i < |milestones| ==>
               milestones[i].percent == UnlockedAt(schedule, w, init, current, milestones[i].remainingEpochs)
    ensures MilestonesWithin(milestones, horizon) == SumAt(Times(milestones), schedule, w, init, current, horizon)
    decreases |milestones|
  {
    if milestones != [] {
      var n := |milestones| - 1;
      MilestonesSum(milestones[..n], schedule, w, init, current, horizon);
      assert Times(milestones)[..n] == Times(milestones[..n]);
    }
  }

  /** Aggregation conserves what unlocks within any horizon. */
  lemma AggregationConserves(
      milestones: seq<Milestone>, schedule: seq<UnlockMilestone>, w: bool, init: int, current: int, horizon: int)
    requires Aggregates(milestones, schedule, w, init, current)
    ensures MilestonesWithin(milestones, horizon) == UnlockedWithin(schedule, w, init, current, horizon)
  {
    var rs := Times(milestones);
    forall i | 0 <= i < |schedule| ensures Remaining(schedule[i].epoch, init, current) in rs {
      assert Occurs(schedule, init, current, Remaining(schedule[i].epoch, init, current));
      var j :| 0 <= j < |milestones| && milestones[j].remainingEpochs == Remaining(schedule[i].epoch, init, current);
      assert rs[j] == milestones[j].remainingEpochs;
    }
    MilestonesSum(milestones, schedule, w, init, current, horizon);
    SumAtIsWithin(rs, schedule, w, init, current, horizon);
  }

  lemma {:induction false} WithinAll(milestones: seq<Milestone>, horizon: int)
    requires forall i :: 0 <= i < |milestones| ==> milestones[i].remainingEpochs <= horizon
    ensures MilestonesWithin(milestones, horizon) == MilestonesTotal(milestones)
    decreases |milestones|
  {
    if milestones != [] { WithinAll(milestones[..|milestones| - 1], horizon); }
  }

  lemma {:induction false} ScheduleWithinAll(
      schedule: seq<UnlockMilestone>, w: bool, init: int, current: int, horizon: int)
    requires forall i :: 0 <= i < |schedule| ==> Remaining(schedule[i].epoch, init, current) <= horizon
    ensures UnlockedWithin(schedule, w, init, current, horizon) == TotalPercent(schedule, w)
    decreases |schedule|
  {
    if schedule != [] { ScheduleWithinAll(schedule[..|schedule| - 1], w, init, current, horizon); }
  }

  /** Aggregation conserves the total percentage. */
  lemma TotalConserved(milestones: seq<Milestone>, schedule: seq<UnlockMilestone>, w: bool, init: int, current: int)
    requires Aggregates(milestones, schedule, w, init, current)
    ensures MilestonesTotal(milestones) == TotalPercent(schedule, w)
  {
    var horizon := if milestones == [] then 0 else milestones[|milestones| - 1].remainingEpochs;
    forall i | 0 <= i < |schedule| ensures Remaining(schedule[i].epoch, init, current) <= horizon {
      assert Occurs(schedule, init, current, Remaining(schedule[i].epoch, init, current));
    }
    AggregationConserves(milestones, schedule, w, init, current, horizon);
    WithinAll(milestones, horizon);
    ScheduleWithinAll(schedule, w, init, current, horizon);
  }

  /** The percentages as scheduled of the unlocks that wait for exactly `r` epochs. */
  function ScheduledAt(schedule: seq<UnlockMilestone>, initEpoch: int, currentEpoch: int, r: nat): nat {
    if schedule == [] then 0
    else
      var n := |schedule| - 1;
      ScheduledAt(schedule[..n], initEpoch, currentEpoch, r)
      + if Remaining(schedule[n].epoch, initEpoch, currentEpoch) == r then schedule[n].percent else 0
  }

  function Scheduled(schedule: seq<UnlockMilestone>): nat {
    if schedule == [] then 0 else Scheduled(schedule[..|schedule| - 1]) + schedule[|schedule| - 1].percent
  }

  /** Percentages come in thousandths with an activation nonce, and whole without one. */
  lemma {:induction false} UnlocksAreScheduled(
      schedule: seq<UnlockMilestone>, withActivationNonce: bool, init: int, current: int, r: nat)
    ensures UnlockedAt(schedule, withActivationNonce, init, current, r) ==
            if withActivationNonce then ScheduledAt(schedule, init, current, r)
            else 1000 * ScheduledAt(schedule, init, current, r)
  {
    if schedule != [] {
      UnlocksAreScheduled(schedule[..|schedule| - 1], withActivationNonce, init, current, r);
    }
  }

  lemma {:induction false} TotalIsScheduled(schedule: seq<UnlockMilestone>, withActivationNonce: bool)
    ensures TotalPercent(schedule, withActivationNonce) ==
            if withActivationNonce then Scheduled(schedule) else 1000 * Scheduled(schedule)
  {
    if schedule != [] {
      TotalIsScheduled(schedule[..|schedule| - 1], withActivationNonce);
    }
  }

  /**
   In thousandths of a percent, milestones are what is scheduled for their remaining times, and all of
   it, in the unit of the schedule.
   */
  lemma MilestonesAreScheduled(
      milestones: seq<Milestone>, schedule: seq<UnlockMilestone>, withActivationNonce: bool, init: int, current: int)
    requires Aggregates(milestones, schedule, withActivationNonce, init, current)
    ensures forall i :: 0 <= i < |milestones| ==>
              var scheduled := ScheduledAt(schedule, init, current, milestones[i].remainingEpochs);
              milestones[i].percent == if withActivationNonce then scheduled else 1000 * scheduled
    ensures MilestonesTotal(milestones) ==
            if withActivationNonce then Scheduled(schedule) else 1000 * Scheduled(schedule)
  {
    forall i | 0 <= i < |milestones|
      ensures var scheduled := ScheduledAt(schedule, init, current, milestones[i].remainingEpochs);
              milestones[i].percent == if withActivationNonce then scheduled else 1000 * scheduled
    {
      UnlocksAreScheduled(schedule, withActivationNonce, init, current, milestones[i].remainingEpochs);
    }
    TotalConserved(milestones, schedule, withActivationNonce, init, current);
    TotalIsScheduled(schedule, withActivationNonce);
  }

  // ----- the code -----------------------------------------------------------------------------

  lemma {:induction false} Smallest(s: set<nat>) returns (m: nat)
    requires s != {}
    ensures m in s && forall x :: x in s ==> m <= x
    decreases |s|
  {
    var first :| first in s;
    m := first;
    if s != {first} {
      var r := Smallest(s - {first});
      if r < m { m := r; }
      assert s == (s - {first}) + {first};
    }
  }

  lemma AppendGreatest(keys: seq<nat>, m: nat)
    requires forall i, j :: 0 <= i < j < |keys| ==> keys[i] < keys[j]
    requires forall x :: x in keys ==> x < m
    ensures forall i, j :: 0 <= i < j < |keys + [m]| ==> (keys + [m])[i] < (keys + [m])[j]
    ensures forall x :: x in keys + [m] <==> x in keys || x == m
  {
    forall i | 0 <= i < |keys| ensures keys[i] < m { assert keys[i] in keys; }
  }

  /** Integer keys of an object are enumerated in ascending order. */
  method AscendingKeys(s: set<nat>) returns (keys: seq<nat>)
    ensures forall i, j :: 0 <= i < j < |keys| ==> keys[i] < keys[j]
    ensures forall x :: x in keys <==> x in s
  {
    keys := [];
    var rest := s;
    while rest != {}
      invariant rest <= s && forall x :: x in keys <==> x in s - rest
      invariant forall i, j :: 0 <= i < j < |keys| ==> keys[i] < keys[j]
      invariant forall x, y :: x in keys && y in rest ==> x < y
      decreases rest
    {
      ghost var least := Smallest(rest);
      var m: nat :| m in rest && forall x :: x in rest ==> m <= x;
      AppendGreatest(keys, m);
      keys := keys + [m];
      rest := rest - {m};
    }
  }

  ghost predicate Tallied(aggregated: map<nat, nat>, schedule: seq<UnlockMilestone>, w: bool, init: int, current: int) {
    && (forall r: nat :: r in aggregated <==> Occurs(schedule, init, current, r))
    && forall r: nat :: UnlockedAt(schedule, w, init, current, r) == if r in aggregated then aggregated[r] else 0
  }

  method Tally(
      schedule: seq<UnlockMilestone>, withActivationNonce: bool, initEpoch: int, currentEpoch: int)
      returns (aggregated: map<nat, nat>)
    ensures Tallied(aggregated, schedule, withActivationNonce, initEpoch, currentEpoch)
  {
    aggregated := map[];
    for n := 0 to |schedule|
      invariant Tallied(aggregated, schedule[..n], withActivationNonce, initEpoch, currentEpoch)
    {
      var remainingEpochs := Remaining(schedule[n].epoch, initEpoch, currentEpoch);
      OneMoreUnlock(schedule, n, withActivationNonce, initEpoch, currentEpoch);
      if remainingEpochs !in aggregated || aggregated[remainingEpochs] == 0 {
        aggregated := aggregated[remainingEpochs := 0];
      }
      aggregated := aggregated[remainingEpochs := aggregated[remainingEpochs] +
          Percent(schedule[n], withActivationNonce)];
    }
    assert schedule[..|schedule|] == schedule;
  }

  method GetUnlockMilestones(
      schedule: seq<UnlockMilestone>, withActivationNonce: bool, initEpoch: int, currentEpoch: int)
    returns (milestones: seq<Milestone>)
    ensures Aggregates(milestones, schedule, withActivationNonce, initEpoch, currentEpoch)
  {
    var aggregated := Tally(schedule, withActivationNonce, initEpoch, currentEpoch);
    var keys := AscendingKeys(aggregated.Keys);
    milestones := [];
    for i := 0 to |keys|
      invariant |milestones| == i
      invariant forall j :: 0 <= j < i ==>
                  keys[j] in aggregated && milestones[j] == Milestone(keys[j], aggregated[keys[j]])
    {
      assert keys[i] in keys;
      milestones := milestones + [Milestone(keys[i], aggregated[keys[i]])];
    }
    forall r: nat ensures r in aggregated <==> exists i :: 0 <= i < |milestones| && milestones[i].remainingEpochs == r {
      if r in aggregated {
        assert r in keys;
        var i :| 0 <= i < |keys| && keys[i] == r;
        assert milestones[i].remainingEpochs == r;
      }
    }
  }

  lemma OneMoreUnlock(schedule: seq<UnlockMilestone>, n: nat, w: bool, init: int, current: int)
    requires n < |schedule|
    ensures forall r: int :: Occurs(schedule[..n + 1], init, current, r) <==>
              Occurs(schedule[..n], init, current, r) || r == Remaining(schedule[n].epoch, init, current)
    ensures forall r: nat ::
              UnlockedAt(schedule[..n + 1], w, init, current, r) == UnlockedAt(schedule[..n], w, init, current, r)
              + if r == Remaining(schedule[n].epoch, init, current) then Percent(schedule[n], w) else 0
  {
    var more, less := schedule[..n + 1], schedule[..n];
    assert more[..n] == less && more[n] == schedule[n];
    forall r: int
      ensures Occurs(more, init, current, r) <==>
                Occurs(less, init, current, r) || r == Remaining(schedule[n].epoch, init, current)
    {
      if Occurs(less, init, current, r) {
        var i :| 0 <= i < n && Remaining(less[i].epoch, init, current) == r;
        assert more[i] == less[i];
      }
      if Occurs(more, init, current, r) {
        var i :| 0 <= i < n + 1 && Remaining(more[i].epoch, init, current) == r;
        assert i < n ==> less[i] == more[i];
      }
    }
  }
}
