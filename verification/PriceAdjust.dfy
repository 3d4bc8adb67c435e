/** Adjusting an order's price: retries for a busy platform and one retry after a recovered session,
  * but never after a call that took effect or whose outcome is unknown.
  */
module PriceAdjust {
  import opened Options
  import opened GoStrings

  const ATTEMPTS: nat := 5

  /** The class of a call's error; `Transport` stands for every error without a class. */
  datatype ErrorKind = Business | System | Transport

  /** One platform call: `error` is the call's error, `expired` says that the error, or the refusal of a
    * call without error, reports an expired session.
    */
  datatype Answer = Answer(succeeded: bool, error: Option<ErrorKind>, expired: bool)

  /** How an attempt ends; a failure has the text of its error. */
  datatype End = Done | Uncertain | Failed(text: string)

  datatype Event = Called(answer: Answer) | Recovered | Ended(end: End) | Waited

  /** `isAdjustPriceTransientBusy`. */
  predicate IsTransientBusy(text: string) {
    Contains(text, "CANNOT_MODIFY_FEE") || Contains(text, "稍后重试") || Contains(text, "稍后再试")
  }

  /** The call took effect. */
  predicate TookEffect(a: Answer) {
    a.error.None? && a.succeeded
  }

  /** An expired session is reported by an error or by a refusal. */
  predicate Expired(a: Answer) {
    a.expired && !TookEffect(a)
  }

  /** The answer is an error or a refusal, and it says that the session has expired. */
  predicate ReportsExpiry(a: Answer) {
    a.expired && (a.error != None || !a.succeeded)
  }

  /** The call may or may not have taken effect. */
  predicate IsUnknown(a: Answer) {
    a.error == Some(Transport) && !Expired(a)
  }

  /** The text contains the platform's error code or one of its two requests to try again later. */
  predicate SaysTryLater(text: string) {
    || Contains(text, "CANNOT_MODIFY_FEE")
    || Contains(text, "\U{7A0D}\U{540E}\U{91CD}\U{8BD5}") || Contains(text, "\U{7A0D}\U{540E}\U{518D}\U{8BD5}")
  }

  lemma BusyTexts()
    ensures forall text :: IsTransientBusy(text) <==> SaysTryLater(text)
  {
    hide Contains;
    assert "稍后重试" == "\U{7A0D}\U{540E}\U{91CD}\U{8BD5}" && "稍后再试" == "\U{7A0D}\U{540E}\U{518D}\U{8BD5}";
  }

  function Calls(events: seq<Event>): nat {
    if events == [] then 0 else Calls(events[..|events| - 1]) + if events[|events| - 1].Called? then 1 else 0
  }

  function Attempts(events: seq<Event>): nat {
    if events == [] then 0 else Attempts(events[..|events| - 1]) + if events[|events| - 1].Ended? then 1 else 0
  }

  /** What may follow an event: after a call a recovery, if its session had expired, or the attempt's end,
    * which is no plain failure if the call took effect or is unknown; after a busy failure a wait; after
    * any other end nothing.
    */
  predicate MayFollow(e: Event, next: Event) {
    match e
    case Called(a) =>
      (next.Recovered? && Expired(a)) || (next.Ended? && (TookEffect(a) || IsUnknown(a) ==> !next.end.Failed?))
    case Recovered => next.Called? || next.Ended?
    case Ended(end) => next.Waited? && end.Failed? && IsTransientBusy(end.text)
    case Waited => next.Called? || next.Ended?
  }

  predicate Careful(events: seq<Event>, from: nat) {
    && (forall i :: from <= i < |events| - 1 ==> MayFollow(events[i], events[i + 1]))
    && (from < |events| ==> !events[from].Waited?)
  }

  lemma Snoc(events: seq<Event>, from: nat, e: Event)
    requires from <= |events| && Careful(events, from) && (if from < |events| then MayFollow(events[|events| - 1], e) else !e.Waited?)
    ensures Careful(events + [e], from)
    ensures Calls(events + [e]) == Calls(events) + if e.Called? then 1 else 0
    ensures Attempts(events + [e]) == Attempts(events) + if e.Ended? then 1 else 0
  {
    var all := events + [e];
    assert all[..|events|] == events;
    assert forall i :: 0 <= i < |events| ==> all[i] == events[i];
  }

  /** The next event may be a call or an end. */
  predicate AtStart(events: seq<Event>, from: nat) {
    from < |events| ==> events[|events| - 1].Waited? || events[|events| - 1].Recovered?
  }

  /** The last event is the end of an attempt that did not succeed. */
  predicate GaveUp(events: seq<Event>, from: nat) {
    from < |events| && events[|events| - 1].Ended? && !events[|events| - 1].end.Done?
  }

  class PriceAdjuster {
    var events: seq<Event>
    var turn: nat
    const opens: nat -> bool
    const answers: nat -> Answer
    const saves: nat -> bool
    const recovers: nat -> bool
    const texts: nat -> string
    const cancelled: nat -> bool

    constructor (opens: nat -> bool, answers: nat -> Answer, saves: nat -> bool, recovers: nat -> bool,
                 texts: nat -> string, cancelled: nat -> bool)
      ensures events == []
    {
      events, turn := [], 0;
      this.opens, this.answers, this.saves := opens, answers, saves;
      this.recovers, this.texts, this.cancelled := recovers, texts, cancelled;
    }

    method Record(e: Event, ghost from: nat)
      requires from <= |events| && Careful(events, from) && (if from < |events| then MayFollow(events[|events| - 1], e) else !e.Waited?)
      modifies this
      ensures events == old(events) + [e] && turn == old(turn) + 1 && Careful(events, from)
      ensures Calls(events) == Calls(old(events)) + if e.Called? then 1 else 0
      ensures Attempts(events) == Attempts(old(events)) + if e.Ended? then 1 else 0
    {
      Snoc(events, from, e);
      events := events + [e];
      turn := turn + 1;
    }

    /** `adjustOrderPriceAttempt`: at most two calls, the second one only after a recovered session. */
    method Attempt(allowRecovery: bool, ghost from: nat) returns (end: End)
      requires from <= |events| && Careful(events, from) && AtStart(events, from)
      modifies this
      ensures old(events) <= events && Careful(events, from)
      ensures Calls(events) <= Calls(old(events)) + if allowRecovery then 2 else 1
      ensures Attempts(events) == Attempts(old(events))
      ensures from < |events| ==> MayFollow(events[|events| - 1], Ended(end))
      ensures end.Done? ==> events != [] && events[|events| - 1].Called? && TookEffect(events[|events| - 1].answer)
      ensures opens(old(turn)) && TookEffect(answers(old(turn))) && saves(old(turn) + 1) ==>
                end.Done? && events == old(events) + [Called(answers(old(turn)))]
      // an expired session is recovered and the call repeated, if that is allowed and possible
      ensures opens(old(turn)) && Expired(answers(old(turn))) && saves(old(turn) + 1) && allowRecovery && recovers(old(turn) + 1) ==>
                old(events) + [Called(answers(old(turn))), Recovered] <= events
      ensures opens(old(turn)) && ReportsExpiry(answers(old(turn))) && saves(old(turn) + 1) && allowRecovery && recovers(old(turn) + 1) ==>
                old(events) + [Called(answers(old(turn))), Recovered] <= events
      decreases allowRecovery
    {
      hide Careful, Calls, Attempts, IsTransientBusy;
      if !opens(turn) { return Failed(texts(turn)); }
      var answer := answers(turn);
      Record(Called(answer), from);
      var saved := saves(turn);
      if Expired(answer) {
        if !saved { return Failed(texts(turn)); }
        if allowRecovery && recovers(turn) {
          Record(Recovered, from);
          end := Attempt(false, from);
          return;
        }
        return Failed(texts(turn));
      }
      if answer.error.Some? {
        return if answer.error.value.Transport? then Uncertain else Failed(texts(turn));
      }
      if !answer.succeeded { return Failed(texts(turn)); }
      end := if saved then Done else Uncertain;
    }

    /** The loop of `adjustOrderPriceWithRetry`. */
    method RetryLoop() returns (ok: bool)
      modifies this
      ensures old(events) <= events && Careful(events, |old(events)|)
      ensures Attempts(events) <= Attempts(old(events)) + 5 && Calls(events) <= Calls(old(events)) + 10
      ensures ok ==> |events| >= 2 && events[|events| - 1] == Ended(Done)
                     && events[|events| - 2].Called? && TookEffect(events[|events| - 2].answer)
      ensures !ok ==>
                && GaveUp(events, |old(events)|)
                && (events[|events| - 1].end.Failed? && IsTransientBusy(events[|events| - 1].end.text) ==>
                      Attempts(events) == Attempts(old(events)) + 5 || exists n :: cancelled(n))
      ensures opens(old(turn)) && TookEffect(answers(old(turn))) && saves(old(turn) + 1) ==>
                ok && events == old(events) + [Called(answers(old(turn))), Ended(Done)]
    {
      hide Calls, Attempts, Careful, IsTransientBusy;
      ghost var from := |events|;
      NothingYet(events);
      for attempt := 1 to ATTEMPTS + 1
        invariant old(events) <= events && from <= |events| && Careful(events, from) && AtStart(events, from)
        invariant Calls(events) <= Calls(old(events)) + 2 * (attempt - 1)
        invariant Attempts(events) == Attempts(old(events)) + attempt - 1
        invariant attempt > ATTEMPTS ==> GaveUp(events, from)
        invariant opens(old(turn)) && TookEffect(answers(old(turn))) && saves(old(turn) + 1) ==>
                    attempt == 1 && events == old(events) && turn == old(turn)
      {
        var end := Attempt(true, from);
        Record(Ended(end), from);
        if end.Done? { return true; }
        if end.Uncertain? || !IsTransientBusy(end.text) || attempt == ATTEMPTS || cancelled(turn) { return false; }
        Record(Waited, from);
      }
      ok := false;
    }

    /** `adjustOrderPriceWithRetry`. */
    method AdjustWithRetry() returns (ok: bool)
      modifies this
      ensures old(events) <= events && Careful(events, |old(events)|)
      // at most five attempts and ten calls
      ensures Attempts(events) <= Attempts(old(events)) + 5 && Calls(events) <= Calls(old(events)) + 10
      // no call follows one that succeeded, or one with an unclassified error that reports no expired session;
      // a call is followed by another one only through a recovered expiry or a failure that asks to try again
      ensures forall i, j :: |old(events)| <= i < j < |events| && events[i].Called? && events[j].Called? ==>
                var a := events[i].answer;
                && (a.error == None ==> !a.succeeded) && (a.error == Some(Transport) ==> a.expired)
                && ((events[i + 1] == Recovered && a.expired)
                    || (events[i + 1].Ended? && events[i + 1].end.Failed? && SaysTryLater(events[i + 1].end.text)))
      ensures ok ==> |events| >= 2 && events[|events| - 1] == Ended(Done) && events[|events| - 2].Called?
                     && events[|events| - 2].answer.error == None && events[|events| - 2].answer.succeeded
      // it waits only after failures that ask to try again later, and stops after one of them only when it was
      // cancelled or had five attempts
      ensures forall i :: |old(events)| <= i < |events| && events[i] == Waited ==>
                |old(events)| < i && events[i - 1].Ended? && events[i - 1].end.Failed? && SaysTryLater(events[i - 1].end.text)
      ensures !ok ==>
                && |old(events)| < |events| && events[|events| - 1].Ended? && events[|events| - 1].end != Done
                && (events[|events| - 1].end.Failed? && SaysTryLater(events[|events| - 1].end.text) ==>
                      Attempts(events) == Attempts(old(events)) + 5 || exists n :: cancelled(n))
      ensures opens(old(turn)) && answers(old(turn)).error == None && answers(old(turn)).succeeded && saves(old(turn) + 1) ==>
                ok && events == old(events) + [Called(answers(old(turn))), Ended(Done)]
    {
      hide Calls, Attempts, Careful, IsTransientBusy, SaysTryLater;
      BusyTexts();
      ok := RetryLoop();
      CarefulCalls(events, |old(events)|);
    }
  }

  lemma NothingYet(events: seq<Event>)
    ensures Careful(events, |events|)
  {}

  /** In a careful record no call comes after one that took effect or is unknown. */
  lemma CarefulCalls(events: seq<Event>, from: nat)
    requires from <= |events| && Careful(events, from)
    ensures forall i, j :: from <= i < j < |events| && events[i].Called? && events[j].Called? ==>
              && !TookEffect(events[i].answer) && !IsUnknown(events[i].answer)
              && ((events[i + 1].Recovered? && Expired(events[i].answer))
                  || (events[i + 1].Ended? && events[i + 1].end.Failed? && IsTransientBusy(events[i + 1].end.text)))
    ensures forall i :: from <= i < |events| && events[i] == Waited ==>
              from < i && events[i - 1].Ended? && events[i - 1].end.Failed? && IsTransientBusy(events[i - 1].end.text)
  {
    hide IsTransientBusy;
    forall i | from <= i < |events| && events[i] == Waited
      ensures from < i && events[i - 1].Ended? && events[i - 1].end.Failed? && IsTransientBusy(events[i - 1].end.text)
    {
      if from < i { assert MayFollow(events[i - 1], events[i - 1 + 1]); }
    }
    forall i, j | from <= i < j < |events| && events[i].Called? && events[j].Called?
      ensures !TookEffect(events[i].answer) && !IsUnknown(events[i].answer)
      ensures (events[i + 1].Recovered? && Expired(events[i].answer))
              || (events[i + 1].Ended? && events[i + 1].end.Failed? && IsTransientBusy(events[i + 1].end.text))
    {
      assert MayFollow(events[i], events[i + 1]);
      if events[i + 1].Ended? {
        assert MayFollow(events[i + 1], events[i + 1 + 1]);
      }
    }
  }
}
