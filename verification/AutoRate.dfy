/** Rating buyers in batches: a rating that succeeded is never attempted again, whatever fails around it. */
module AutoRate {
  import opened Options
  import opened Storage

  datatype Status = Running | Success | Failed | NeedsReview

  /** `permanent` is the no-retry mark in the message. */
  datatype TaskRun = TaskRun(status: Status, attempts: nat, nextRetry: int, permanent: bool)

  const MAX_ATTEMPTS: nat := 6

  /** What the platform answered: `stop` marks errors that end the batch, `expired` an order that is too old. */
  datatype Answer = Rated | Refused(stop: bool, expired: bool)

  /** One answered rating call. */
  datatype Rating = Rating(order: string, answer: Answer)

  datatype Summary = Summary(found: nat, success: nat, failed: nat, skipped: nat)

  /** Whether a claim takes the run: a new one, or a failed one that is due. */
  predicate Claimable(runs: map<string, TaskRun>, order: string, now: int) {
    order !in runs || (
      var r := runs[order];
      r.status.Failed? && r.attempts < MAX_ATTEMPTS && r.nextRetry <= now && !r.permanent)
  }

  function Claimed(runs: map<string, TaskRun>, order: string): TaskRun {
    if order in runs then runs[order].(status := Running, attempts := runs[order].attempts + 1, permanent := false)
    else TaskRun(Running, 1, 0, false)
  }

  function Finished(r: TaskRun, status: Status, permanent: bool, nextRetry: int): TaskRun {
    r.(status := status, permanent := permanent,
       nextRetry := if status.Failed? && MAX_ATTEMPTS <= r.attempts then 0 else nextRetry)
  }

  // ---- the central invariant ----

  /** The order's rating succeeded. */
  predicate RatedIn(ratings: seq<Rating>, order: string) {
    exists i :: 0 <= i < |ratings| && ratings[i] == Rating(order, Rated)
  }

  /** How many rating calls an order has had. */
  function CallsFor(ratings: seq<Rating>, order: string): nat {
    if ratings == [] then 0
    else CallsFor(ratings[..|ratings| - 1], order) + if ratings[|ratings| - 1].order == order then 1 else 0
  }

  lemma CallsAfter(ratings: seq<Rating>, r: Rating, order: string)
    ensures CallsFor(ratings + [r], order) == CallsFor(ratings, order) + if r.order == order then 1 else 0
  {
    assert (ratings + [r])[..|ratings|] == ratings;
  }

  /** No order has more rating calls than attempts, and no run more than six attempts. */
  ghost predicate FewCalls(runs: map<string, TaskRun>, ratings: seq<Rating>) {
    && (forall order :: CallsFor(ratings, order) <= if order in runs then runs[order].attempts else 0)
    && forall order :: order in runs ==> runs[order].attempts <= 6
  }

  /** Every rated order's run is closed to claims, and no order was rated twice. */
  ghost predicate Safe(runs: map<string, TaskRun>, ratings: seq<Rating>) {
    && (forall order :: RatedIn(ratings, order) ==> order in runs && !runs[order].status.Failed?)
    && forall i, j :: 0 <= i < j < |ratings| && ratings[i].answer.Rated? && ratings[j].answer.Rated? ==>
         ratings[i].order != ratings[j].order
  }

  /** The run takes no more attempts: it did not fail, it failed for good, or it had six attempts. */
  predicate IsClosed(runs: map<string, TaskRun>, order: string) {
    order in runs && (!runs[order].status.Failed? || runs[order].permanent || 6 <= runs[order].attempts)
  }

  lemma RatedAfter(ratings: seq<Rating>, r: Rating, order: string)
    ensures RatedIn(ratings + [r], order) <==> RatedIn(ratings, order) || r == Rating(order, Rated)
  {
    var all := ratings + [r];
    assert all[|ratings|] == r && forall i :: 0 <= i < |ratings| ==> all[i] == ratings[i];
  }

  /** The repository and the platform; `clock` and the outcomes are functions of the call number. */
  class Environment {
    var runs: map<string, TaskRun>
    var ratings: seq<Rating>
    var turn: nat
    const clock: nat -> int
    const reachable: nat -> bool
    const writes: nat -> Write
    const answers: nat -> Answer

    constructor (clock: nat -> int, reachable: nat -> bool, writes: nat -> Write, answers: nat -> Answer)
      ensures Safe(runs, ratings) && FewCalls(runs, ratings) && ratings == []
    {
      runs, ratings, turn := map[], [], 0;
      this.clock, this.reachable, this.writes, this.answers := clock, reachable, writes, answers;
    }

    /** `ClaimRun`; `None` is a database error. */
    method Claim(order: string) returns (claimed: Option<bool>)
      requires Safe(runs, ratings) && FewCalls(runs, ratings)
      modifies this`runs, this`turn
      ensures Safe(runs, ratings) && FewCalls(runs, ratings) && turn == old(turn) + 1
      ensures claimed != Some(true) ==> runs == old(runs) || (claimed.None? && runs == old(runs)[order := Claimed(old(runs), order)])
      ensures RatedIn(ratings, order) ==> runs == old(runs)
      ensures claimed.None? <==> !writes(old(turn)).Stored?
      ensures claimed.Some? ==> claimed.value == Claimable(old(runs), order, clock(old(turn)))
      // a claim takes a new run, or a failed one that is due and neither failed for good nor had six attempts
      ensures claimed == Some(true) <==>
                && writes(old(turn)).Stored?
                && (order !in old(runs) || (var r := old(runs)[order];
                      r.status == Failed && r.attempts < 6 && r.nextRetry <= clock(old(turn)) && !r.permanent))
      ensures IsClosed(old(runs), order) ==> runs == old(runs)
      ensures claimed == Some(true) ==>
                && order in runs && runs[order].attempts == (if order in old(runs) then old(runs)[order].attempts else 0) + 1
                && !runs[order].permanent && CallsFor(ratings, order) < runs[order].attempts
      ensures claimed == Some(true) ==>
                && runs == old(runs)[order := Claimed(old(runs), order)] && runs[order].status.Running?
                && !RatedIn(ratings, order)
    {
      var outcome, now := writes(turn), clock(turn);
      turn := turn + 1;
      if outcome.NotStored? { return None; }
      if !Claimable(runs, order, now) { return if outcome.Stored? then Some(false) else None; }
      runs := runs[order := Claimed(runs, order)];
      claimed := if outcome.Stored? then Some(true) else None;
    }

    /** `FinishRun`, on a claimed run; a status other than failed is always allowed. */
    method Finish(order: string, status: Status, permanent: bool, nextRetry: int) returns (ok: bool)
      requires Safe(runs, ratings) && FewCalls(runs, ratings) && order in runs && (RatedIn(ratings, order) ==> !status.Failed?)
      modifies this`runs, this`turn
      ensures Safe(runs, ratings) && FewCalls(runs, ratings) && turn == old(turn) + 1
      ensures runs == old(runs) || runs == old(runs)[order := Finished(old(runs)[order], status, permanent, nextRetry)]
      ensures ok <==> writes(old(turn)).Stored?
      ensures ok ==> runs == old(runs)[order := Finished(old(runs)[order], status, permanent, nextRetry)]
      // the attempts stay, and the sixth failure has no next attempt
      ensures ok ==> runs[order] == TaskRun(status, old(runs)[order].attempts,
                       if status == Failed && 6 <= old(runs)[order].attempts then 0 else nextRetry, permanent)
      ensures runs == old(runs) && !ok ==> writes(old(turn)).NotStored? || old(runs)[order] == Finished(old(runs)[order], status, permanent, nextRetry)
    {
      var outcome := writes(turn);
      turn := turn + 1;
      if !outcome.NotStored? { runs := runs[order := Finished(runs[order], status, permanent, nextRetry)]; }
      ok := outcome.Stored?;
    }

    /** `RateBuyer` on a claimed order. */
    method Rate(order: string) returns (answer: Answer)
      requires Safe(runs, ratings) && FewCalls(runs, ratings) && order in runs && runs[order].status.Running? && !RatedIn(ratings, order)
      requires CallsFor(ratings, order) < runs[order].attempts
      modifies this`ratings, this`turn
      ensures Safe(runs, ratings) && FewCalls(runs, ratings) && ratings == old(ratings) + [Rating(order, answer)] && turn == old(turn) + 1
      ensures answer == answers(old(turn))
    {
      answer := answers(turn);
      turn := turn + 1;
      forall other { RatedAfter(ratings, Rating(order, answer), other); }
      forall other { CallsAfter(ratings, Rating(order, answer), other); }
      ratings := ratings + [Rating(order, answer)];
    }

    /** Any other step that can only fail: saving cookies, reading credentials, marking the scan. */
    method Attempt() returns (ok: bool)
      modifies this`turn
      ensures turn == old(turn) + 1 && ok == reachable(old(turn))
    {
      ok := reachable(turn);
      turn := turn + 1;
    }

    /** `finishAccountTaskRun`: if the status cannot be saved, the run is quarantined; if that fails too,
      * it stays claimed.
      */
    method FinishOrQuarantine(order: string, status: Status, permanent: bool, nextRetry: int) returns (ok: bool)
      requires Safe(runs, ratings) && FewCalls(runs, ratings) && order in runs && runs[order].status.Running?
      requires !status.Running? && (RatedIn(ratings, order) ==> !status.Failed?)
      modifies this`runs, this`turn
      ensures Safe(runs, ratings) && FewCalls(runs, ratings) && order in runs && runs.Keys == old(runs).Keys
      ensures forall other :: other in runs && other != order ==> runs[other] == old(runs)[other]
      ensures ok <==> writes(old(turn)).Stored?
      ensures ok ==> runs == old(runs)[order := Finished(old(runs)[order], status, permanent, nextRetry)]
      ensures ok ==> runs[order] == TaskRun(status, old(runs)[order].attempts,
                       if status == Failed && 6 <= old(runs)[order].attempts then 0 else nextRetry, permanent)
      ensures !ok ==> runs[order].status in {status, NeedsReview, Running}
      ensures runs[order].status.Running? ==> writes(old(turn)).NotStored? && writes(old(turn) + 1).NotStored?
    {
      ok := Finish(order, status, permanent, nextRetry);
      if !ok { var _ := Finish(order, NeedsReview, false, 0); }
    }

    /** `quarantineAccountTaskRun`. */
    method QuarantineRun(order: string)
      requires Safe(runs, ratings) && FewCalls(runs, ratings) && order in runs && runs[order].status.Running?
      modifies this`runs, this`turn
      ensures Safe(runs, ratings) && FewCalls(runs, ratings) && order in runs && runs.Keys == old(runs).Keys
      ensures forall other :: other in runs && other != order ==> runs[other] == old(runs)[other]
      ensures runs[order].status in {NeedsReview, Running}
      ensures runs[order].status.Running? ==> writes(old(turn)).NotStored?
    {
      var _ := Finish(order, NeedsReview, false, 0);
    }

    /** Nothing fails and no answer ends the batch. */
    ghost predicate Smooth() {
      && (forall n :: writes(n).Stored? && reachable(n))
      && forall n :: answers(n).Refused? ==> !answers(n).stop
    }

    /** One order of the batch. `Aborted` ends the batch with an error. */
    method RateOne(order: string) returns (end: End)
      requires Safe(runs, ratings) && FewCalls(runs, ratings)
      modifies this
      ensures Safe(runs, ratings) && FewCalls(runs, ratings) && OneOrder(old(runs), old(ratings), runs, ratings, order, end)
      ensures Smooth() ==> !end.Aborted? && end != Refusal(true)
      // a new order is not skipped
      ensures order !in old(runs) ==> !end.Skipped?
      ensures runs.Keys == old(runs).Keys || runs.Keys == old(runs).Keys + {order}
    {
      hide Safe, RatedIn, Claimable, Claimed, FewCalls, CallsFor;
      var claimed := Claim(order);
      if claimed.None? { return Aborted; }
      if !claimed.value { return Skipped; }
      var answer := Rate(order);
      RatedAfter(old(ratings), Rating(order, answer), order);
      end := Conclude(order, answer);
    }

    /** What follows a rating call: saving its cookies and recording its outcome. */
    method Conclude(order: string, answer: Answer) returns (end: End)
      requires Safe(runs, ratings) && FewCalls(runs, ratings) && order in runs && runs[order].status.Running?
      requires answer.Refused? ==> !RatedIn(ratings, order)
      modifies this`runs, this`turn
      ensures Safe(runs, ratings) && FewCalls(runs, ratings) && order in runs && !end.Skipped?
      ensures forall other :: other in old(runs) && other != order ==> other in runs && runs[other] == old(runs)[other]
      ensures runs.Keys == old(runs).Keys
      ensures end.Counted? ==> answer.Rated? && runs[order].status.Success?
      ensures answer.Rated? ==> !end.Refusal? && !runs[order].status.Failed?
      ensures end.Refusal? ==>
                answer.Refused? && runs[order].status.Failed? && runs[order].permanent == answer.expired && (answer.stop ==> end.stop)
      // a refusal ends the batch if the platform says so or the cookies could not be saved; a successful rating
      // whose cookies could not be saved goes to review
      ensures end.Refusal? ==> (end.stop <==> answer.stop || !reachable(old(turn)))
      ensures answer.Rated? && !reachable(old(turn)) ==> end.Aborted? && runs[order].status in {NeedsReview, Running}
      ensures end.Refusal? && answer.expired ==> runs[order].nextRetry == 0
      // the next attempt is ten minutes later
      ensures end.Refusal? && !answer.expired && old(runs)[order].attempts < 6 ==>
                runs[order].nextRetry == clock(old(turn) + 1) + 600
      ensures (forall n :: writes(n).Stored? && reachable(n)) ==> !end.Aborted? && (end == Refusal(true) ==> answer.stop)
    {
      hide Safe, RatedIn, FewCalls;
      var saved := Attempt();
      if answer.Refused? {
        var finished := FinishOrQuarantine(order, Failed, answer.expired, if answer.expired then 0 else clock(turn) + 600);
        if !finished { return Aborted; }
        return Refusal(!saved || answer.stop);
      }
      if !saved {
        QuarantineRun(order);
        return Aborted;
      }
      var finished := FinishOrQuarantine(order, Success, false, 0);
      end := if finished then Counted else Aborted;
    }

    /** `runAutoRate` from its list of candidates on. */
    method RunAutoRate(orders: seq<string>) returns (summary: Summary, ok: bool)
      requires Safe(runs, ratings) && FewCalls(runs, ratings)
      modifies this
      ensures Safe(runs, ratings) && FewCalls(runs, ratings) && old(ratings) <= ratings
      ensures summary.found == |orders|
      ensures ok ==> summary.found == summary.success + summary.failed + summary.skipped
      ensures summary.success + summary.failed + summary.skipped <= summary.found
      ensures BatchDone(runs, ratings, |old(ratings)|, summary.success, summary.failed, ok)
      ensures Smooth() ==> ok
      // if the batch succeeds, every new order in it got a call
      ensures ok ==> forall i :: 0 <= i < |orders| && orders[i] !in old(runs) ==> CallsFor(ratings, orders[i]) > 0
      // orders that were rated, failed for good or had six attempts get no call
      ensures forall order :: IsClosed(old(runs), order) ==>
                && order in runs && runs[order] == old(runs)[order] && CallsFor(ratings, order) == CallsFor(old(ratings), order)
    {
      hide Safe, FewCalls, Batch, BatchDone, OneOrder, CallsFor;
      summary := Summary(|orders|, 0, 0, 0);
      BatchStarts(runs, ratings);
      if orders == [] {
        ok := Attempt();
        BatchEnds(runs, ratings, |ratings|, 0, 0, ok);
        return;
      }
      var ready := Attempt();
      ghost var start := |ratings|;
      if !ready {
        BatchEnds(runs, ratings, start, 0, 0, false);
        return summary, false;
      }
      for i := 0 to |orders|
        invariant Safe(runs, ratings) && FewCalls(runs, ratings) && old(ratings) <= ratings && start == |old(ratings)|
        invariant forall order :: IsClosed(old(runs), order) ==>
                    && order in runs && runs[order] == old(runs)[order] && CallsFor(ratings, order) == CallsFor(old(ratings), order)
        invariant forall k :: 0 <= k < i && orders[k] !in old(runs) ==> CallsFor(ratings, orders[k]) > 0
        invariant forall order :: order in runs && order !in old(runs) ==> CallsFor(ratings, order) > 0
        invariant summary.found == |orders| && summary.success + summary.failed + summary.skipped == i
        invariant Batch(runs, ratings, start, summary.success, summary.failed)
      {
        ghost var table, before := runs, ratings;
        var end := RateOne(orders[i]);
        CallsGrow(table, before, runs, ratings, orders[i], end);
        ClosedStay(table, before, runs, ratings, orders[i], end);
        BatchGrows(table, before, runs, ratings, start, summary.success, summary.failed, orders[i], end);
        match end {
          case Aborted => return summary, false;
          case Skipped => summary := summary.(skipped := summary.skipped + 1);
          case Refusal(stop) =>
            summary := summary.(failed := summary.failed + 1);
            if stop { return summary, false; }
          case Counted => summary := summary.(success := summary.success + 1);
        }
      }
      ok := Attempt();
      BatchEnds(runs, ratings, start, summary.success, summary.failed, ok);
    }
  }

  /** What handling one order does to the runs and the ratings. */
  ghost predicate OneOrder(runs: map<string, TaskRun>, ratings: seq<Rating>, runs': map<string, TaskRun>, ratings': seq<Rating>,
                           order: string, end: End) {
    // only the order's own run changes, and not at all if the order was rated before
    && (forall other :: other in runs && other != order ==> other in runs' && runs'[other] == runs[other])
    && (RatedIn(ratings, order) || IsClosed(runs, order) ==> runs' == runs && ratings' == ratings)
    && (ratings' == ratings || (|ratings'| == |ratings| + 1 && ratings' == ratings + [Rating(order, ratings'[|ratings|].answer)]))
    && match end
       case Skipped => ratings' == ratings
       case Counted => ratings' == ratings + [Rating(order, Rated)] && order in runs' && runs'[order].status.Success?
       case Refusal(stop) =>
         && ratings' != ratings && ratings'[|ratings|].answer.Refused?
         && order in runs' && runs'[order].status.Failed? && runs'[order].permanent == ratings'[|ratings|].answer.expired
         && (ratings'[|ratings|].answer.stop ==> stop)
       case Aborted =>
         ratings' == ratings + [Rating(order, Rated)] ==> order in runs' && !runs'[order].status.Failed?
  }

  lemma CallsGrow(runs: map<string, TaskRun>, ratings: seq<Rating>, runs': map<string, TaskRun>, ratings': seq<Rating>,
                  order: string, end: End)
    requires OneOrder(runs, ratings, runs', ratings', order, end)
    ensures forall other :: CallsFor(ratings, other) <= CallsFor(ratings', other)
    ensures end.Counted? || end.Refusal? ==> CallsFor(ratings', order) > 0
  {
    hide RatedIn, CallsFor;
    if ratings' != ratings {
      forall other { CallsAfter(ratings, ratings'[|ratings|], other); }
      CallsAfter(ratings, ratings'[|ratings|], order);
    }
  }

  lemma ClosedStay(runs: map<string, TaskRun>, ratings: seq<Rating>, runs': map<string, TaskRun>, ratings': seq<Rating>,
                   order: string, end: End)
    requires OneOrder(runs, ratings, runs', ratings', order, end)
    ensures forall other :: IsClosed(runs, other) ==>
              && other in runs' && runs'[other] == runs[other] && CallsFor(ratings', other) == CallsFor(ratings, other)
  {
    hide RatedIn, CallsFor;
    if ratings' != ratings {
      forall other { CallsAfter(ratings, ratings'[|ratings|], other); }
    }
  }

  /** The batch so far: every call is counted and none ended it; its rated orders are recorded. */
  ghost predicate Batch(runs: map<string, TaskRun>, ratings: seq<Rating>, start: nat, success: nat, failed: nat) {
    && start <= |ratings| && |ratings| - start == success + failed && NoStop(ratings, start, |ratings|)
    && var rated := RatedOrders(ratings[start..]);
       |rated| == success && Recorded(runs, rated)
  }

  /** The batch when it ends: every call but at most the last is counted, and none follows one that ends
    * the batch; all rated orders but at most the last are recorded as successes, and the last is at least
    * not open to another attempt.
    */
  ghost predicate BatchDone(runs: map<string, TaskRun>, ratings: seq<Rating>, start: nat, success: nat, failed: nat, ok: bool) {
    && start <= |ratings| && success + failed <= |ratings| - start <= success + failed + 1
    && NoStop(ratings, start, |ratings| - 1)
    && var rated := RatedOrders(ratings[start..]);
       && success <= |rated| <= success + 1 && (ok ==> |rated| == success)
       && Recorded(runs, rated[..success])
       && (|rated| > success ==> rated[success] in runs && !runs[rated[success]].status.Failed?)
  }

  lemma BatchStarts(runs: map<string, TaskRun>, ratings: seq<Rating>)
    ensures Batch(runs, ratings, |ratings|, 0, 0)
  {}

  lemma BatchEnds(runs: map<string, TaskRun>, ratings: seq<Rating>, start: nat, success: nat, failed: nat, ok: bool)
    requires Batch(runs, ratings, start, success, failed)
    ensures BatchDone(runs, ratings, start, success, failed, ok)
  {
    hide RatedOrders;
    var rated := RatedOrders(ratings[start..]);
    assert rated[..success] == rated;
  }

  lemma BatchGrows(runs: map<string, TaskRun>, ratings: seq<Rating>, runs': map<string, TaskRun>, ratings': seq<Rating>,
                   start: nat, success: nat, failed: nat, order: string, end: End)
    requires Batch(runs, ratings, start, success, failed) && OneOrder(runs, ratings, runs', ratings', order, end)
    ensures ratings <= ratings'
    ensures end.Skipped? ==> Batch(runs', ratings', start, success, failed)
    ensures end == Refusal(false) ==> Batch(runs', ratings', start, success, failed + 1)
    ensures end == Refusal(true) ==> BatchDone(runs', ratings', start, success, failed + 1, false)
    ensures end.Counted? ==> Batch(runs', ratings', start, success + 1, failed)
    ensures end.Aborted? ==> BatchDone(runs', ratings', start, success, failed, false)
  {
    hide RatedOrders, RatedIn, NoStop, Recorded;
    var rated := RatedOrders(ratings[start..]);
    RatedOrdersAreRated(ratings, start);
    NoStopGrows(ratings, ratings', start);
    RecordedStays(runs, runs', rated, order);
    assert rated[..success] == rated;
    if ratings' != ratings {
      assert ratings'[start..] == ratings[start..] + [ratings'[|ratings|]];
      RatedOrdersAppend(ratings[start..], ratings'[|ratings|]);
      assert (rated + [order])[..success] == rated && rated + [] == rated;
    }
  }

  /** None of these answers ends the batch. */
  predicate NoStop(ratings: seq<Rating>, from: nat, to: int) {
    forall i :: from <= i < to && i < |ratings| ==> ratings[i].answer.Refused? ==> !ratings[i].answer.stop
  }

  lemma NoStopGrows(before: seq<Rating>, ratings: seq<Rating>, from: nat)
    requires NoStop(before, from, |before|) && before <= ratings && |ratings| <= |before| + 1
    ensures NoStop(ratings, from, |ratings| - 1)
    ensures ratings != before && (ratings[|before|].answer.Refused? ==> !ratings[|before|].answer.stop) ==> NoStop(ratings, from, |ratings|)
  {
    assert forall i :: 0 <= i < |before| ==> ratings[i] == before[i];
  }

  /** These orders' runs are recorded as successes. */
  predicate Recorded(runs: map<string, TaskRun>, orders: seq<string>) {
    forall order :: order in orders ==> order in runs && runs[order].status.Success?
  }

  lemma RecordedStays(runs: map<string, TaskRun>, runs': map<string, TaskRun>, orders: seq<string>, changed: string)
    requires Recorded(runs, orders)
    requires forall other :: other in runs && other != changed ==> other in runs' && runs'[other] == runs[other]
    requires changed in orders ==> runs' == runs
    ensures Recorded(runs', orders)
    ensures changed in runs' && runs'[changed].status.Success? ==> Recorded(runs', orders + [changed])
  {}

  /** How one order of a batch ends. */
  datatype End = Skipped | Refusal(stop: bool) | Counted | Aborted

  /** The successfully rated orders, in order. */
  function RatedOrders(ratings: seq<Rating>): seq<string> {
    if ratings == [] then []
    else
      var r := ratings[|ratings| - 1];
      RatedOrders(ratings[..|ratings| - 1]) + if r.answer.Rated? then [r.order] else []
  }

  lemma RatedOrdersAppend(ratings: seq<Rating>, r: Rating)
    ensures RatedOrders(ratings + [r]) == RatedOrders(ratings) + if r.answer.Rated? then [r.order] else []
  {
    assert (ratings + [r])[..|ratings|] == ratings;
  }

  lemma {:induction false} RatedOrdersAreRated(ratings: seq<Rating>, start: nat)
    requires start <= |ratings|
    ensures forall i :: 0 <= i < |RatedOrders(ratings[start..])| ==> RatedIn(ratings, RatedOrders(ratings[start..])[i])
    decreases |ratings|
  {
    if start < |ratings| {
      var n := |ratings| - 1;
      var r := ratings[n];
      RatedOrdersAreRated(ratings[..n], start);
      assert ratings[start..] == ratings[..n][start..] + [r];
      RatedOrdersAppend(ratings[..n][start..], r);
      forall order | RatedIn(ratings[..n], order) || r == Rating(order, Rated) ensures RatedIn(ratings, order) {
        assert ratings == ratings[..n] + [r];
        RatedAfter(ratings[..n], r, order);
      }
    }
  }
}
