/** Completing an interrupted delivery: only the missing units are taken, and a mark in the stored proof
  * stands from before the first card is taken until the outcome is stored.
  */
module DeliveryRefill {
  import opened Options
  import opened Storage
  import opened GoStrings
  import opened OrderQuantity
  import opened Proofs
  import opened CardDelivery
  import opened DeliveryActions
  import opened ReplayPlan
  import Decimal

  /** `now` continues `before`: nothing recorded is lost or changed, and no unit beyond the plan is counted. */
  predicate Continues(before: Proof, now: Proof) {
    && before.messages <= now.messages && now.expectedUnits == before.expectedUnits && now.skips == before.skips
    && before.preparedUnits <= now.preparedUnits && before.unknownUnits <= now.unknownUnits
    && (before.preparedUnits + before.unknownUnits + |before.skips| <= before.expectedUnits ==>
          now.preparedUnits + now.unknownUnits + |now.skips| <= now.expectedUnits)
  }

  /** The units that a proof does not cover. */
  function Missing(p: Proof): int {
    p.expectedUnits - p.preparedUnits - p.unknownUnits - |p.skips|
  }

  /** The refilled quantity is taken as it is: one order unit of `n` cards. */
  lemma RefillCount(n: int)
    requires 1 <= n <= MAX_INT
    ensures SendCount(n, "1") == n
  {
    hide Decimal.Text, SendCount;
    SendCountOfText(n, 1);
    TextOfOne();
  }

  lemma TextOfOne()
    ensures Decimal.Text(1) == "1"
  {
    assert Decimal.Digits(1) == [1] && Decimal.DigitChar(1) == '1';
    assert Decimal.Text(1)[0] == '1';
  }

  /** One stored run; `run.proof` is the copy in memory and `stored` the one in the database. */
  class Replay {
    var run: Run
    var stored: Proof
    var writes: nat
    const outcomes: nat -> Write

    constructor (run: Run, outcomes: nat -> Write)
      ensures this.run == run && stored == run.proof
    {
      this.run, stored, writes := run, run.proof, 0;
      this.outcomes := outcomes;
    }

    /** `UpdateDeliveryReplayProof`. */
    method Save(p: Proof) returns (ok: bool)
      modifies this
      ensures run == old(run) && writes == old(writes) + 1 && (ok <==> outcomes(old(writes)).Stored?)
      ensures stored == if outcomes(old(writes)).NotStored? then old(stored) else p
    {
      var outcome := outcomes(writes);
      writes := writes + 1;
      if !outcome.NotStored? { stored := p; }
      ok := outcome.Stored?;
    }

    /** `refillPartialDeliveryProof`; `matches` and `hasFetcher` are as in `SendCard`. */
    method Refill(executor: Executor, matches: bool, card: Option<Card>, hasFetcher: bool) returns (sent: int, ok: bool)
      requires stored == run.proof
      requires Proper(executor.calls, executor.render) && BookOf(executor.calls).held == []
      modifies this, executor
      ensures Continues(old(stored), stored) && old(executor.calls) <= executor.calls
      // no unit is missing, or the plan or the card does not allow a refill: nothing happens
      ensures Missing(old(stored)) <= 0 || !Acceptable(old(run)) || card.None? || card.value.kind == "api" ==>
                stored == old(stored) && executor.calls == old(executor.calls)
      // no more messages than missing units; all of them are stored unless the mark stands
      ensures exists sentNow, review: seq<Message> ::
                && Confirmed(executor.calls) == Confirmed(old(executor.calls)) + sentNow
                && (sentNow != [] ==> |sentNow| + |review| <= Missing(old(stored))) && |review| <= 1
                && (stored.refillPending || (
                      && stored.messages == old(stored).messages + sentNow + review
                      && stored.preparedUnits == old(stored).preparedUnits + |sentNow|
                      && stored.unknownUnits == old(stored).unknownUnits + |review|))
      ensures ok ==> stored == run.proof
      // a refill that can start does start, and one that succeeds sends every missing unit
      ensures Missing(old(stored)) > 0 && Acceptable(old(run)) && outcomes(old(writes)).Stored? && matches
              && card.Some? && card.value.enabled && card.value.kind != "api"
              && 0 < LastCard(old(run).original.value, old(run).original.value.plan).value.cardID ==>
                old(executor.calls) < executor.calls
      ensures ok && matches ==> sent == if Missing(old(stored)) > 0 then Missing(old(stored)) else 0
    {
      hide Acceptable, AppendTradeText, TradeText, Coherent, Confirmed, BookOf, Proper, SendCount, Closed;
      hide DataResult, ApiResult, FixedResult, Gain, Grows, Claimed, CardMessage, LastCard, Total, Continues, Refilled;
      var first := run.proof;
      NothingChanges(first);
      ContinuesWithMark(first, true);
      assert Confirmed(executor.calls) == Confirmed(executor.calls) + [] && stored.messages + [] + [] == stored.messages;
      var remaining := Missing(run.proof);
      if remaining <= 0 { return 0, true; }
      var verdict := DeliveryReplayPlan(Some(run));
      if verdict.Rejected? { return 0, false; }
      AcceptedRefill(run);
      if card.None? || card.value.kind == "api" { return 0, false; }
      var marked := run.proof.(refillPending := true);
      var saved := Save(marked);
      if !saved { return 0, false; }
      run := run.(proof := marked);
      RefillCount(remaining);
      var result := executor.SendCard(matches, verdict.action.value.cardID, remaining, "1", card, hasFetcher);
      var next := Refilled(first, result);
      RefillContinues(first, result, remaining);
      saved := Save(next);
      sent := result.sent;
      if !saved { return sent, false; }
      run := run.(proof := next);
      ok := result.failure.None?;
    }
  }

  /** When units are missing from an accepted run, their number is a count and the action is known. */
  lemma AcceptedRefill(run: Run)
    requires Acceptable(run) && Missing(run.proof) > 0
    ensures LastCard(run.original.value, run.original.value.plan).Some?
    ensures Missing(run.proof) <= MAX_INT
    ensures GoodCounts(run.proof)
  {
    hide Total, Deliveries, LastCard;
  }

  /** The proof that is stored after a refill; the mark stands if nobody knows what became of a card. */
  function Refilled(first: Proof, r: Result): Proof {
    var known := first.(refillPending := false);
    var merged := Merge(Merge(known, r.proof.(expectedUnits := 0)), r.review);
    var unresolved := r.failure == Some(Uncertain) && r.review.unknownUnits == 0;
    merged.(refillPending := unresolved || merged.refillPending)
  }

  lemma RefillContinues(p: Proof, r: Result, remaining: int)
    requires 0 < remaining == Missing(p)
    requires r.proof.preparedUnits == |r.proof.messages| <= r.sent && r.proof.unknownUnits == 0 && r.proof.skips == []
    requires 0 <= r.sent <= Max0(r.proof.expectedUnits) && r.proof.expectedUnits in {0, remaining}
    requires r.review.unknownUnits == |r.review.messages| <= 1 && r.review.preparedUnits == r.review.expectedUnits == 0
    requires r.review.skips == [] && (r.review.messages != [] ==> r.failure == Some(Uncertain))
    requires r.failure.Some? && r.proof.expectedUnits > 0 ==> r.sent < r.proof.expectedUnits
    ensures var next := Refilled(p, r);
            && next.messages == p.messages + r.proof.messages + r.review.messages
            && next.preparedUnits == p.preparedUnits + |r.proof.messages| && next.unknownUnits == p.unknownUnits + |r.review.messages|
            && Continues(p, next)
    ensures |r.proof.messages| + |r.review.messages| <= remaining
  {
    hide AppendTradeText;
    assert p.skips + [] + [] == p.skips;
  }

  lemma NothingChanges(p: Proof)
    ensures Continues(p, p)
  {}

  lemma ContinuesWithMark(p: Proof, mark: bool)
    ensures Continues(p, p.(refillPending := mark))
  {}

  /** A continued proof of a continued proof continues the first. */
  lemma ContinuesIsTransitive(a: Proof, b: Proof, c: Proof)
    requires Continues(a, b) && Continues(b, c)
    ensures Continues(a, c)
  {
    assert forall i :: 0 <= i < |a.messages| ==> c.messages[i] == b.messages[i] == a.messages[i];
  }
}
