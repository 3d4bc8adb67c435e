/** One row of the run table under every statement that the repository issues against it. */
module RunTable {

  datatype Status = Running | Failed | NeedsReview | Success | Canceled

  /** `retriable` is the condition on the error message and the sent count that the claims test. */
  datatype Row = Row(
    status: Status, attempt: int, cursor: int, started: bool, lease: int, nextRetry: int, retriable: bool, proof: bool)

  datatype Resolution = Continue | Retry | Cancel

  /** What advancing does to the stored proof. */
  datatype ProofChange = KeepProof | StoreProof | ClearProof

  /** The statements. `snapshot` is the row a scan read at second `seen`; `also` says that a statement's
    * conditions on columns and tables that are not modelled hold.
    */
  datatype Op =
    | ClaimRun(expiry: int)
    | StartAction(attempt: int, cursor: int, expiry: int, also: bool)
    | AbortAction(attempt: int, cursor: int)
    | RenewRun(attempt: int, expiry: int)
    | RenewExecuting(attempt: int, expiry: int)
    | Quarantine(attempt: int, withProof: bool)
    | Postpone(attempt: int, until: int)
    | Finish(attempt: int, outcome: Status, retriable: bool)
    | QuarantineScanned(snapshot: Row, seen: int)
    | CancelScanned(snapshot: Row, seen: int, also: bool)
    | ClaimReplay(attempt: int, expiry: int)
    | ReleaseReplay(attempt: int, review: bool, retriable: bool)
    | CompleteReplay(attempt: int)
    | UpdateProof(attempt: int)
    | Advance(attempt: int, cursor: int, change: ProofChange)
    | Resolve(resolution: Resolution, also: bool)
    | Reopen(attempt: int, expiry: int, also: bool)
    | RecoverUnsent(also: bool)
    | WakeCredential(also: bool)

  /** The rows that a recovery scan at second `now` returns. */
  predicate Due(row: Row, now: int) {
    || (row.status.Running? && (row.lease == 0 || row.lease < now))
    || (row.status.Failed? && !row.started && row.attempt < 3 && row.nextRetry <= now && row.retriable)
  }

  predicate SameScan(row: Row, snapshot: Row) {
    && row.attempt == snapshot.attempt && row.status == snapshot.status && row.cursor == snapshot.cursor
    && row.started == snapshot.started && row.lease == snapshot.lease
  }

  /** The condition of the statement. */
  predicate Affects(row: Row, op: Op, now: int) {
    match op
    case ClaimRun(expiry) => !row.started && Due(row, now)
    case StartAction(attempt, cursor, expiry, also) =>
      row.attempt == attempt && row.status.Running? && row.cursor == cursor && !row.started && also
    case AbortAction(attempt, cursor) => row.attempt == attempt && row.status.Running? && row.cursor == cursor
    case RenewRun(attempt, expiry) => row.attempt == attempt && row.status.Running?
    case RenewExecuting(attempt, expiry) =>
      now < expiry && row.attempt == attempt && row.status.Running? && row.started && now <= row.lease
    case Quarantine(attempt, withProof) => row.attempt == attempt && (row.status.Running? || row.status.Failed?)
    case Postpone(attempt, until) => row.attempt == attempt && !row.started && (row.status.Running? || row.status.Failed?)
    case Finish(attempt, outcome, retriable) => row.attempt == attempt && row.status.Running?
    case QuarantineScanned(snapshot, seen) =>
      SameScan(row, snapshot) && ((row.status.Running? && row.lease < now) || (row.status.Failed? && row.nextRetry <= now))
    case CancelScanned(snapshot, seen, also) => SameScan(row, snapshot) && also
    case ClaimReplay(attempt, expiry) =>
      now < expiry && row.attempt == attempt && (row.status.Failed? || row.status.NeedsReview?) && row.proof
    case ReleaseReplay(attempt, review, retriable) => row.attempt == attempt && row.status.Running? && row.started
    case CompleteReplay(attempt) => row.attempt == attempt && row.status.Running? && row.started
    case UpdateProof(attempt) => row.attempt == attempt && row.status.Running? && row.started
    case Advance(attempt, cursor, change) => row.attempt == attempt && row.status.Running? && row.cursor == cursor && row.started
    case Resolve(resolution, also) => row.status.NeedsReview? && also
    case Reopen(attempt, expiry, also) => row.attempt == attempt && (row.status.NeedsReview? || row.status.Failed?) && !row.started && also
    case RecoverUnsent(also) => row.status.NeedsReview? && also
    case WakeCredential(also) => row.status.Failed? && !row.started && also
  }

  /** The row after the statement. */
  function Apply(row: Row, op: Op, now: int): Row {
    if !Affects(row, op, now) then row else
    match op
    case ClaimRun(expiry) => row.(status := Running, attempt := row.attempt + 1, lease := expiry, nextRetry := 0)
    case StartAction(_, _, expiry, _) => row.(started := true, lease := expiry)
    case AbortAction(_, _) => row.(started := false)
    case RenewRun(_, expiry) => row.(lease := expiry)
    case RenewExecuting(_, expiry) => row.(lease := if row.lease > expiry then row.lease else expiry)
    case Quarantine(_, withProof) => row.(status := NeedsReview, lease := 0, nextRetry := 0, proof := row.proof || withProof)
    case Postpone(_, until) => if row.status.Running? then row.(lease := until) else row.(nextRetry := until)
    case Finish(_, outcome, retriable) =>
      row.(status := outcome, lease := 0, nextRetry := if outcome.Failed? && retriable then now + 60 else 0, retriable := retriable)
    case QuarantineScanned(_, _) => row.(status := NeedsReview, lease := 0, nextRetry := 0)
    case CancelScanned(_, _, _) => row.(status := Canceled, started := false, lease := 0, nextRetry := 0, proof := false)
    case ClaimReplay(_, expiry) => row.(status := Running, attempt := row.attempt + 1, lease := expiry, started := true)
    case ReleaseReplay(_, review, retriable) =>
      row.(status := if review then NeedsReview else Failed, lease := 0, started := review, retriable := retriable)
    case CompleteReplay(_) => row.(status := Success, lease := 0, nextRetry := 0, started := false)
    case UpdateProof(_) => row.(proof := true)
    case Advance(_, _, change) =>
      row.(cursor := row.cursor + 1, started := false,
           proof := if change.KeepProof? then row.proof else change.StoreProof?)
    case Resolve(Continue, _) => row.(status := Running, cursor := row.cursor + 1, started := false, lease := 0, nextRetry := 0)
    case Resolve(Retry, _) => row.(status := Running, started := false, lease := 0, nextRetry := 0)
    case Resolve(Cancel, _) => row.(status := Canceled, started := false, lease := 0, nextRetry := 0, proof := false)
    case Reopen(_, expiry, _) =>
      row.(status := Running, started := false, attempt := row.attempt + 1, lease := expiry, nextRetry := 0)
    case RecoverUnsent(_) => row.(status := Failed, started := false, lease := 0, nextRetry := 0, retriable := true)
    case WakeCredential(_) => row.(nextRetry := 0)
  }

  /** A scan's snapshot was due when it was read, and it was read in the past. */
  predicate Sane(op: Op, now: int) {
    match op
    case QuarantineScanned(snapshot, seen) => seen <= now && Due(snapshot, seen)
    case CancelScanned(snapshot, seen, _) => seen <= now && Due(snapshot, seen)
    case _ => true
  }

  /** One executed statement. */
  datatype Event = Event(op: Op, now: int, before: Row, after: Row)

  predicate Effective(e: Event) {
    Affects(e.before, e.op, e.now)
  }

  /** A history of the row: statements one after the other, on a clock that never runs backwards. */
  ghost predicate History(events: seq<Event>) {
    && (forall i :: 0 <= i < |events| ==>
          0 < events[i].now && Sane(events[i].op, events[i].now)
          && events[i].after == Apply(events[i].before, events[i].op, events[i].now))
    && (forall i :: 0 < i < |events| ==> events[i].before == events[i - 1].after && events[i - 1].now <= events[i].now)
  }

  // ---- generations ----

  predicate IsClaim(op: Op) {
    op.ClaimRun? || op.ClaimReplay? || op.Reopen?
  }

  lemma GenerationStep(row: Row, op: Op, now: int)
    ensures Apply(row, op, now).attempt == row.attempt + if IsClaim(op) && Affects(row, op, now) then 1 else 0
  {}

  /** Generations never go back, and every effective claim starts a new one. */
  lemma {:induction false} GenerationsGrow(events: seq<Event>, i: nat, j: nat)
    requires History(events) && i <= j < |events|
    ensures events[i].before.attempt <= events[j].before.attempt <= events[j].after.attempt
    ensures i < j ==> events[i].after.attempt <= events[j].before.attempt
    ensures Effective(events[i]) && Effective(events[j]) && IsClaim(events[i].op) && IsClaim(events[j].op) && i < j ==>
              events[i].after.attempt < events[j].after.attempt
    decreases j
  {
    hide Apply, Affects;
    GenerationStep(events[j].before, events[j].op, events[j].now);
    GenerationStep(events[i].before, events[i].op, events[i].now);
    if i < j {
      GenerationsGrow(events, i, j - 1);
    }
  }

  /** The generation a statement is issued for, if it names one. */
  predicate ForGeneration(op: Op, k: int) {
    match op
    case StartAction(attempt, _, _, _) => attempt == k
    case AbortAction(attempt, _) => attempt == k
    case RenewRun(attempt, _) => attempt == k
    case RenewExecuting(attempt, _) => attempt == k
    case Quarantine(attempt, _) => attempt == k
    case Postpone(attempt, _) => attempt == k
    case Finish(attempt, _, _) => attempt == k
    case ReleaseReplay(attempt, _, _) => attempt == k
    case CompleteReplay(attempt) => attempt == k
    case UpdateProof(attempt) => attempt == k
    case Advance(attempt, _, _) => attempt == k
    case _ => false
  }

  /** Once a newer generation exists, no statement of an older one changes anything any more. */
  lemma StaleIsPowerless(events: seq<Event>, i: nat, j: nat, k: int)
    requires History(events) && i < j < |events|
    requires k < events[i].after.attempt && ForGeneration(events[j].op, k)
    ensures !Effective(events[j]) && events[j].after == events[j].before
  {
    hide Apply, Due;
    GenerationsGrow(events, i, j);
    UnaffectedStays(events[j].before, events[j].op, events[j].now);
  }

  lemma UnaffectedStays(row: Row, op: Op, now: int)
    requires !Affects(row, op, now)
    ensures Apply(row, op, now) == row
  {}

  // ---- exclusive execution ----

  /** Generation `k` executes the action at `cursor` under a lease that runs at least until `until`. */
  predicate Executing(row: Row, k: int, cursor: int, until: int) {
    row.status.Running? && row.started && row.attempt == k && row.cursor == cursor && until <= row.lease
  }

  /** The statements by which the executing generation itself ends its action or shortens its lease. */
  predicate EndsAction(op: Op, k: int) {
    ForGeneration(op, k) && (op.AbortAction? || op.RenewRun? || op.Quarantine? || op.Finish? || op.ReleaseReplay?
                             || op.CompleteReplay? || op.Advance?)
  }

  /** While an action runs under an unexpired lease, nothing but its own generation's statements can
    * end it or take the run away, and the lease never moves backwards.
    */
  lemma LeaseProtects(row: Row, op: Op, now: int, k: int, cursor: int, until: int)
    requires Executing(row, k, cursor, until) && 0 < now <= until && Sane(op, now)
    requires !EndsAction(op, k)
    ensures Executing(Apply(row, op, now), k, cursor, until)
    ensures row.lease <= Apply(row, op, now).lease
    ensures !op.RenewExecuting? && !op.UpdateProof? ==> !Affects(row, op, now)
  {}

  /** Over any stretch of history that stays within the lease. */
  lemma {:induction false} ExecutionIsExclusive(events: seq<Event>, i: nat, j: nat, k: int, cursor: int, until: int)
    requires History(events) && i <= j < |events|
    requires Executing(events[i].before, k, cursor, until) && events[j].now <= until
    requires forall n :: i <= n <= j ==> !EndsAction(events[n].op, k)
    ensures Executing(events[j].after, k, cursor, until)
    ensures events[i].before.lease <= events[j].after.lease
    ensures forall n :: i <= n <= j && Effective(events[n]) ==> events[n].op.RenewExecuting? || events[n].op.UpdateProof?
    decreases j
  {
    hide Apply, Affects, Executing, Sane;
    if i < j {
      ExecutionIsExclusive(events, i, j - 1, k, cursor, until);
    }
    LeaseProtects(events[j].before, events[j].op, events[j].now, k, cursor, until);
  }

  // ---- what never comes back ----

  /** A run that succeeded or was canceled never changes again. */
  lemma {:induction false} FinishedIsFinal(events: seq<Event>, i: nat, j: nat)
    requires History(events) && i <= j < |events|
    requires events[i].before.status == Success || events[i].before.status == Canceled
    ensures events[j].after == events[i].before
    decreases j
  {
    hide Apply, Affects, Due, Sane;
    if i < j {
      FinishedIsFinal(events, i, j - 1);
    }
    FinishedStep(events[j].before, events[j].op, events[j].now);
  }

  lemma FinishedStep(row: Row, op: Op, now: int)
    requires (row.status == Success || row.status == Canceled) && Sane(op, now)
    ensures Apply(row, op, now) == row
  {}

  lemma CursorStep(row: Row, op: Op, now: int)
    ensures var next := Apply(row, op, now);
            && (next.cursor == row.cursor || next.cursor == row.cursor + 1)
            && (next.cursor == row.cursor + 1 ==> !next.started)
            && (next.cursor == row.cursor + 1 ==>
                  || (op.Advance? && row.status == Running && row.started && op.attempt == row.attempt && op.cursor == row.cursor)
                  || (op.Resolve? && op.resolution == Continue && row.status == NeedsReview))
  {}

  /** The cursor never goes back; it passes an action only when that action's generation advances it, or when a
    * run under review is continued by hand.
    */
  lemma {:induction false} CursorMovesForward(events: seq<Event>, i: nat, j: nat)
    requires History(events) && i <= j < |events|
    ensures events[i].before.cursor <= events[j].after.cursor
    ensures events[i].before.cursor < events[j].after.cursor ==>
              exists n :: i <= n <= j && events[n].before.cursor == events[i].before.cursor
                && ((events[n].op.Advance? && events[n].before.started && events[n].op.attempt == events[n].before.attempt)
                    || (events[n].op.Resolve? && events[n].op.resolution == Continue && events[n].before.status == NeedsReview))
    decreases j
  {
    hide Apply, Affects;
    CursorStep(events[j].before, events[j].op, events[j].now);
    if i < j {
      CursorMovesForward(events, i, j - 1);
    }
  }

  /** The statements after which an action that was started counts as not started: the execution gives it up, a
    * replay ends, the run is canceled, or somebody decides by hand.
    */
  predicate Unstarts(op: Op) {
    op.AbortAction? || op.Advance? || op.ReleaseReplay? || op.CompleteReplay? || op.CancelScanned? || op.Resolve? || op.RecoverUnsent?
  }

  lemma StartStep(row: Row, op: Op, now: int)
    ensures row.started && !Apply(row, op, now).started ==> Affects(row, op, now) && Unstarts(op)
    ensures op.StartAction? && Affects(row, op, now) ==> !row.started && Apply(row, op, now).started
    ensures op.ClaimRun? && Affects(row, op, now) ==> !row.started
  {}

  /** An action that was started is not started again, and its run is not claimed, before one of these
    * statements took effect.
    */
  lemma {:induction false} StartedIsNotRepeated(events: seq<Event>, i: nat, j: nat)
    requires History(events) && i < j < |events|
    requires events[i].op.StartAction? && Effective(events[i])
    requires (events[j].op.StartAction? || events[j].op.ClaimRun?) && Effective(events[j])
    ensures exists n :: i < n < j && Effective(events[n]) && Unstarts(events[n].op)
  {
    hide Apply, Affects;
    StartStep(events[i].before, events[i].op, events[i].now);
    StartStep(events[j].before, events[j].op, events[j].now);
    if forall n :: i < n < j ==> !(Effective(events[n]) && Unstarts(events[n].op)) {
      StartedStays(events, i + 1, j);
    }
  }

  lemma {:induction false} StartedStays(events: seq<Event>, i: nat, j: nat)
    requires History(events) && 0 < i <= j < |events| && events[i].before.started
    requires forall n :: i <= n < j ==> !(Effective(events[n]) && Unstarts(events[n].op))
    ensures events[j].before.started
    decreases j
  {
    hide Apply, Affects;
    if i < j {
      StartedStays(events, i, j - 1);
      StartStep(events[j - 1].before, events[j - 1].op, events[j - 1].now);
    }
  }

  /** A run that failed with a retriable error is claimed again at the earliest after a minute, and never from
    * its third generation on.
    */
  lemma RetryWaits(row: Row, attempt: int, now: int, later: int, expiry: int)
    requires Affects(row, Finish(attempt, Failed, true), now)
    ensures var failed := Apply(row, Finish(attempt, Failed, true), now);
            && failed.status == Failed
            && (Affects(failed, ClaimRun(expiry), later) <==> now + 60 <= later && row.attempt < 3 && !row.started)
    ensures !Affects(Apply(row, Finish(attempt, Failed, false), now), ClaimRun(expiry), later)
  {}

  /** While an action is in flight, a statement that is not its own generation's either changes nothing or hands
    * the run to review or cancels it.
    */
  lemma AbandonedActionIsReviewed(row: Row, op: Op, now: int)
    requires row.status == Running && row.started && Sane(op, now) && !ForGeneration(op, row.attempt)
    ensures var next := Apply(row, op, now);
            next == row || (next.status == NeedsReview && next.started && next.cursor == row.cursor) || next.status == Canceled
  {}

  /** The ways in which a status changes, and who can change it so. */
  predicate MayBecome(row: Row, op: Op, status: Status) {
    match status
    case Running =>
      || (op.ClaimRun? && row.status == Failed && !row.started && row.attempt < 3)
      || (op.ClaimReplay? && op.attempt == row.attempt && row.status in {Failed, NeedsReview} && row.proof)
      || (op.Resolve? && op.resolution in {Continue, Retry} && row.status == NeedsReview)
      || (op.Reopen? && op.attempt == row.attempt && row.status in {Failed, NeedsReview} && !row.started)
    case Failed =>
      || (op.ReleaseReplay? && op.attempt == row.attempt && row.status == Running && row.started && !op.review)
      || (op.Finish? && op.attempt == row.attempt && row.status == Running && op.outcome == Failed)
      || (op.RecoverUnsent? && row.status == NeedsReview)
    case NeedsReview =>
      || (op.Quarantine? && op.attempt == row.attempt && row.status in {Running, Failed})
      || (op.QuarantineScanned? && row.status in {Running, Failed})
      || (op.ReleaseReplay? && op.attempt == row.attempt && row.status == Running && row.started && op.review)
      || (op.Finish? && op.attempt == row.attempt && row.status == Running && op.outcome == NeedsReview)
    case Success =>
      && row.status == Running
      && ((op.CompleteReplay? && op.attempt == row.attempt && row.started)
          || (op.Finish? && op.attempt == row.attempt && op.outcome == Success))
    case Canceled =>
      || (op.CancelScanned? && row.status in {Running, Failed})
      || (op.Resolve? && op.resolution == Cancel && row.status == NeedsReview)
      || (op.Finish? && op.attempt == row.attempt && row.status == Running && op.outcome == Canceled)
  }

  /** Every change of a run's status, in any history, is one of these. */
  lemma StatusChanges(events: seq<Event>, i: nat)
    requires History(events) && i < |events| && events[i].after.status != events[i].before.status
    ensures MayBecome(events[i].before, events[i].op, events[i].after.status)
  {}

  /** What an effective statement does to the lease, the retry time and the mark of a started action. */
  lemma ColumnsAfter(row: Row, op: Op, now: int)
    requires Affects(row, op, now)
    ensures var next := Apply(row, op, now);
            // claims, starts and renewals set the lease; whoever takes a run out of execution clears it
            && (op.ClaimRun? || op.StartAction? || op.RenewRun? || op.ClaimReplay? || op.Reopen? ==> next.lease == op.expiry)
            && (op.RenewExecuting? ==> next.lease == if row.lease < op.expiry then op.expiry else row.lease)
            && (op.Postpone? && row.status == Running ==> next.lease == op.until && next.nextRetry == row.nextRetry)
            && (op.Postpone? && row.status == Failed ==> next.lease == row.lease && next.nextRetry == op.until)
            && (op.AbortAction? || op.UpdateProof? || op.Advance? || op.WakeCredential? ==> next.lease == row.lease)
            && (op.Quarantine? || op.Finish? || op.QuarantineScanned? || op.CancelScanned? ==> next.lease == 0)
            && (op.ReleaseReplay? || op.CompleteReplay? || op.Resolve? || op.RecoverUnsent? ==> next.lease == 0)
            && (op.WakeCredential? ==> next.nextRetry == 0 && next == row.(nextRetry := 0))
            // the mark is set by a start and by a replay, and by a replay that ends in review
            && (next.started <==>
                  || op.StartAction? || op.ClaimReplay? || (op.ReleaseReplay? && op.review)
                  || (row.started && (op.ClaimRun? || op.RenewRun? || op.RenewExecuting? || op.Quarantine? || op.Postpone? || op.Finish?
                                      || op.QuarantineScanned? || op.UpdateProof? || op.WakeCredential?)))
            && next.cursor == row.cursor + (if op.Advance? || (op.Resolve? && op.resolution == Continue) then 1 else 0)
  {}

  /** A run that somebody sent back to its action by hand can be claimed at any time. */
  lemma ResolvedRunIsClaimable(row: Row, resolution: Resolution, now: int, later: int, expiry: int)
    requires Affects(row, Resolve(resolution, true), now) && resolution != Cancel
    ensures Affects(Apply(row, Resolve(resolution, true), now), ClaimRun(expiry), later)
  {}

  /** Statements that store a proof. */
  predicate StoresProof(op: Op) {
    op.UpdateProof? || (op.Quarantine? && op.withProof) || (op.Advance? && op.change == StoreProof)
  }

  lemma ProofStep(row: Row, op: Op, now: int)
    ensures Apply(row, op, now).proof && !row.proof ==> Affects(row, op, now) && StoresProof(op)
    ensures Affects(row, op, now) && StoresProof(op) ==> Apply(row, op, now).proof
    ensures row.proof && !Apply(row, op, now).proof ==>
              op.CancelScanned? || (op.Resolve? && op.resolution == Cancel) || (op.Advance? && op.change == ClearProof)
    ensures op.ClaimReplay? && Affects(row, op, now) ==> row.proof
  {}

  /** A replay is claimed only when a proof was stored before it, or was there from the start. */
  lemma {:induction false} ReplayHasProof(events: seq<Event>, i: nat, j: nat)
    requires History(events) && i <= j < |events| && events[j].op.ClaimReplay? && Effective(events[j])
    ensures events[i].before.proof || exists n :: i <= n < j && Effective(events[n]) && StoresProof(events[n].op)
  {
    hide Apply, Affects, StoresProof;
    ProofStep(events[j].before, events[j].op, events[j].now);
    ProofWasStored(events, i, j);
  }

  lemma {:induction false} ProofWasStored(events: seq<Event>, i: nat, j: nat)
    requires History(events) && i <= j < |events| && events[j].before.proof
    ensures events[i].before.proof || exists n :: i <= n < j && Effective(events[n]) && StoresProof(events[n].op)
    decreases j
  {
    hide Apply, Affects, StoresProof;
    if i < j {
      ProofStep(events[j - 1].before, events[j - 1].op, events[j - 1].now);
      if events[j - 1].before.proof { ProofWasStored(events, i, j - 1); }
    }
  }

  /** A run that is not running holds no lease. */
  lemma {:induction false} OnlyRunningRunsAreLeased(events: seq<Event>, i: nat, j: nat)
    requires History(events) && i <= j < |events|
    requires events[i].before.status == Running || events[i].before.lease == 0
    ensures events[j].after.status == Running || events[j].after.lease == 0
    decreases j
  {
    hide Apply, Affects;
    if i < j {
      OnlyRunningRunsAreLeased(events, i, j - 1);
    }
    LeaseStep(events[j].before, events[j].op, events[j].now);
  }

  lemma LeaseStep(row: Row, op: Op, now: int)
    requires row.status == Running || row.lease == 0
    ensures Apply(row, op, now).status == Running || Apply(row, op, now).lease == 0
  {}

  // ---- checks ----

  /** A successful check of generation `k`: its renewal took effect. */
  predicate CheckPassed(e: Event, k: int) {
    e.op.RenewExecuting? && e.op.attempt == k && Effective(e)
  }

  /** Successful checks have non-decreasing generations. */
  lemma ChecksAreOrdered(events: seq<Event>, i: nat, j: nat, k: int, m: int)
    requires History(events) && i <= j < |events| && CheckPassed(events[i], k) && CheckPassed(events[j], m)
    ensures k <= m
  {
    hide Apply, Due;
    GenerationsGrow(events, i, j);
  }

  /** A renewal never shortens a lease and never revives an expired one. */
  lemma RenewalOnlyExtends(row: Row, attempt: int, expiry: int, now: int)
    ensures var next := Apply(row, RenewExecuting(attempt, expiry), now);
            && row.lease <= next.lease
            && (row.lease < now ==> next == row)
            && next == row.(lease := next.lease)
            && (Affects(row, RenewExecuting(attempt, expiry), now) ==> expiry <= next.lease && now < next.lease)
  {}

  /** Checks of two generations never overlap: before the newer one's first check the older one has
    * ended its action itself, or its lease had run out.
    */
  lemma {:induction false} NewerGenerationWaits(events: seq<Event>, i: nat, j: nat, k: int, m: int)
    requires History(events) && i < j < |events| && k < m
    requires CheckPassed(events[i], k) && CheckPassed(events[j], m)
    ensures (exists n :: i < n < j && EndsAction(events[n].op, k)) || events[i].after.lease < events[j].now
  {
    hide Apply;
    var row := events[i].after;
    RenewalOnlyExtends(events[i].before, k, events[i].op.expiry, events[i].now);
    if (forall n :: i < n < j ==> !EndsAction(events[n].op, k)) && events[j].now <= row.lease {
      assert !EndsAction(events[j].op, k);
      ExecutionIsExclusive(events, i + 1, j, k, row.cursor, row.lease);
      GenerationStep(events[j].before, events[j].op, events[j].now);
      assert false;
    }
  }
}
