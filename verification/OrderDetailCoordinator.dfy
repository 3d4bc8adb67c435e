/** The order-detail coordinator: single flight per account and order, a minimum gap between the calls of
  * one account, and a short cache of successes, all under one lock.
  *
  * The critical sections are the atomic steps. A thread may read the clock long before it takes the
  * lock, and the clock is a natural number that never runs backwards.
  */
module OrderDetailCoordinator {
  import opened Options
  import opened GoStrings
  import opened NulKeys

  /** `Details(result)` may be the empty answer `None`, which is no error but is not cached either. */
  datatype Outcome = Details(result: Option<string>) | Failure(error: string)

  /** `origin` is the request that produced the success. */
  datatype Success = Success(result: string, expires: nat, origin: nat)

  /** A finished request. */
  datatype Finished = Finished(key: string, outcome: Outcome, at: nat)

  datatype State = State(
    nextAllowed: map<string, nat>,
    requests: map<string, nat>,
    successes: map<string, Success>,
    finished: seq<Option<Finished>>)

  const EMPTY := State(map[], map[], map[], [])

  function NextAllowed(s: State, account: string): nat {
    if account in s.nextAllowed then s.nextAllowed[account] else 0
  }

  // ---- keys ----

  /** The key of a call of `Fetch`; `None` when the account or the order is blank. */
  function RequestKey(account: string, order: string): (r: Option<string>)
    ensures r.Some? ==> Normal(Trim(account)) && Normal(Trim(order))
  {
    if Trim(account) == "" || Trim(order) == "" then None else Some(Key(Trim(account), Trim(order)))
  }

  /** White space around the account and the order does not matter, and a blank one has no key; otherwise
    * equal keys mean equal trimmed accounts and orders, unless one of them contains a NUL character.
    */
  lemma KeyOfTrimmedTexts(account: string, order: string, account': string, order': string)
    ensures RequestKey(account, order).None? <==> Blank(account) || Blank(order)
    ensures Trim(account) == Trim(account') && Trim(order) == Trim(order') ==> RequestKey(account, order) == RequestKey(account', order')
    ensures RequestKey(account, order) == RequestKey(account', order') != None
            && NoNul(Trim(account)) && NoNul(Trim(account')) ==>
              Trim(account) == Trim(account') && Trim(order) == Trim(order')
  {
    hide Trim, Key;
    if RequestKey(account, order) == RequestKey(account', order') != None && NoNul(Trim(account)) && NoNul(Trim(account')) {
      KeyIsInjective(Trim(account), Trim(order), Trim(account'), Trim(order'));
    }
  }

  /** Requests for different accounts and orders that share a key. */
  lemma DifferentRequestsShareAKey()
    ensures RequestKey("a\U{0000}b", "c") == RequestKey("a", "b\U{0000}c") != None
  {
    TrimOfTrimmed("a\U{0000}b");
    TrimOfTrimmed("c");
    TrimOfTrimmed("a");
    TrimOfTrimmed("b\U{0000}c");
    assert Key("a\U{0000}b", "c") == Key("a", "b\U{0000}c");
  }

  // ---- the critical sections ----

  datatype Entry = Cached(result: string) | Join(request: nat) | Own(request: nat)

  /** The first section of `Fetch`: a fresh success, the running request, or a new one. */
  function EnterEntry(s: State, key: string, now: nat): Entry {
    if key in s.successes && now < s.successes[key].expires then Cached(s.successes[key].result)
    else if key in s.requests then Join(s.requests[key])
    else Own(|s.finished|)
  }

  function EnterState(s: State, key: string, now: nat): State {
    if key in s.successes && now < s.successes[key].expires then s
    else
      var swept := s.(successes := s.successes - {key});
      if key in s.requests then swept
      else swept.(requests := s.requests[key := |s.finished|], finished := s.finished + [None])
  }

  /** The section of `fetchAfterAccountGap`: `seen` is the time read before the lock was taken. */
  predicate SlotFree(s: State, account: string, seen: nat) {
    NextAllowed(s, account) <= seen
  }

  function SlotState(s: State, account: string, seen: nat, gap: nat): State {
    if SlotFree(s, account, seen) then s.(nextAllowed := s.nextAllowed[account := seen + gap]) else s
  }

  /** The last section of `Fetch`. */
  function FinishState(s: State, key: string, request: nat, outcome: Outcome, now: nat, ttl: nat): State
    requires request < |s.finished|
  {
    var kept := s.(finished := s.finished[request := Some(Finished(key, outcome, now))], requests := s.requests - {key});
    if outcome.Details? && outcome.result.Some? && ttl > 0 then
      kept.(successes := s.successes[key := Success(outcome.result.value, now + ttl, request)])
    else kept
  }

  class Coordinator {
    var nextAllowed: map<string, nat>
    var requests: map<string, nat>
    var successes: map<string, Success>
    var finished: seq<Option<Finished>>
    const minGap: nat
    const maxJitter: nat
    const ttl: nat

    function Contents(): State
      reads this
    {
      State(nextAllowed, requests, successes, finished)
    }

    /** Negative settings count as zero. */
    constructor (minGap: int, maxJitter: int, ttl: nat)
      ensures Contents() == EMPTY && this.ttl == ttl
      ensures this.minGap == (if minGap < 0 then 0 else minGap) && this.maxJitter == if maxJitter < 0 then 0 else maxJitter
    {
      nextAllowed, requests, successes, finished := map[], map[], map[], [];
      this.minGap := if minGap < 0 then 0 else minGap;
      this.maxJitter := if maxJitter < 0 then 0 else maxJitter;
      this.ttl := ttl;
    }

    method Enter(key: string, now: nat) returns (e: Entry)
      modifies this
      ensures e == EnterEntry(old(Contents()), key, now) && Contents() == EnterState(old(Contents()), key, now)
    {
      if key in successes {
        if now < successes[key].expires { return Cached(successes[key].result); }
        successes := successes - {key};
      }
      if key in requests { return Join(requests[key]); }
      e := Own(|finished|);
      requests := requests[key := |finished|];
      finished := finished + [None];
    }

    /** The gap is the minimum plus a jitter forced into its bounds. */
    function Gap(jitter: int): (gap: nat)
      ensures minGap <= gap <= minGap + maxJitter
    {
      minGap + if jitter < 0 then 0 else if maxJitter < jitter then maxJitter else jitter
    }

    method TrySlot(account: string, seen: nat, jitter: int) returns (granted: bool)
      modifies this
      ensures granted <==> SlotFree(old(Contents()), account, seen)
      ensures Contents() == SlotState(old(Contents()), account, seen, Gap(jitter))
      // the next slot is the minimum gap and the jitter later, which is at least zero and at most its maximum
      ensures granted ==> account in nextAllowed
      ensures granted && jitter < 0 ==> nextAllowed[account] == seen + minGap
      ensures granted && 0 <= jitter <= maxJitter ==> nextAllowed[account] == seen + minGap + jitter
      ensures granted && maxJitter < jitter ==> nextAllowed[account] == seen + minGap + maxJitter
    {
      var allowedAt := if account in nextAllowed then nextAllowed[account] else 0;
      granted := allowedAt <= seen;
      if granted { nextAllowed := nextAllowed[account := seen + Gap(jitter)]; }
    }

    method Finish(key: string, request: nat, outcome: Outcome, now: nat)
      requires request < |finished|
      modifies this
      ensures Contents() == FinishState(old(Contents()), key, request, outcome, now, ttl)
    {
      finished := finished[request := Some(Finished(key, outcome, now))];
      if outcome.Details? && outcome.result.Some? && ttl > 0 {
        successes := successes[key := Success(outcome.result.value, now + ttl, request)];
      }
      requests := requests - {key};
    }
  }

  // ---- threads ----

  datatype Phase =
    | Ready
    | Joined(request: nat)
    | Owner(request: nat)
    | Observed(request: nat, seen: nat)
    | Calling(request: nat)
    | Called(request: nat, outcome: Outcome)
    | Returned(outcome: Outcome, source: Source)

  /** Where a returned outcome came from. */
  datatype Source = FromCache(origin: nat, at: nat) | FromRequest(origin: nat) | Cancelled

  datatype Thread = Thread(account: string, order: string, phase: Phase)

  datatype Grant = Grant(account: string, at: nat)

  datatype System = System(state: State, threads: seq<Thread>, grants: seq<Grant>, now: nat)

  datatype Action =
    | Tick(to: nat)
    | DoEnter(t: nat)
    | ReadClock(t: nat)
    | DoTrySlot(t: nat, gap: nat)
    | Cancel(t: nat)
    | CallReturns(t: nat, outcome: Outcome)
    | DoFinish(t: nat)
    | JoinReturns(t: nat)

  function KeyOf(th: Thread): string {
    Key(th.account, th.order)
  }

  function Entered(s: State, key: string, now: nat): Phase {
    match EnterEntry(s, key, now)
    case Cached(result) => Returned(Details(Some(result)), FromCache(s.successes[key].origin, now))
    case Join(request) => Joined(request)
    case Own(request) => Owner(request)
  }

  ghost predicate Step(a: System, action: Action, b: System, minGap: nat, ttl: nat) {
    match action
    case Tick(to) => a.now <= to && b == a.(now := to)
    case DoEnter(t) =>
      t < |a.threads| && a.threads[t].phase.Ready?
      && var key := KeyOf(a.threads[t]);
         b == a.(state := EnterState(a.state, key, a.now), threads := Moved(a.threads, t, Entered(a.state, key, a.now)))
    case ReadClock(t) =>
      t < |a.threads| && a.threads[t].phase.Owner?
      && b == a.(threads := Moved(a.threads, t, Observed(a.threads[t].phase.request, a.now)))
    case DoTrySlot(t, gap) =>
      t < |a.threads| && a.threads[t].phase.Observed? && minGap <= gap
      && var th := a.threads[t];
         if SlotFree(a.state, th.account, th.phase.seen) then
           b == a.(state := SlotState(a.state, th.account, th.phase.seen, gap),
                   threads := Moved(a.threads, t, Calling(th.phase.request)),
                   grants := a.grants + [Grant(th.account, th.phase.seen)])
         else b == a.(threads := Moved(a.threads, t, Owner(th.phase.request)))
    case Cancel(t) =>
      t < |a.threads| && (a.threads[t].phase.Owner? || a.threads[t].phase.Joined?)
      && b == a.(threads := Moved(a.threads, t,
                   if a.threads[t].phase.Owner? then Called(a.threads[t].phase.request, Failure("canceled"))
                   else Returned(Failure("canceled"), Cancelled)))
    case CallReturns(t, outcome) =>
      t < |a.threads| && a.threads[t].phase.Calling?
      && b == a.(threads := Moved(a.threads, t, Called(a.threads[t].phase.request, outcome)))
    case DoFinish(t) =>
      t < |a.threads| && a.threads[t].phase.Called? && a.threads[t].phase.request < |a.state.finished|
      && var th := a.threads[t];
         b == a.(state := FinishState(a.state, KeyOf(th), th.phase.request, th.phase.outcome, a.now, ttl),
                 threads := Moved(a.threads, t, Returned(th.phase.outcome, FromRequest(th.phase.request))))
    case JoinReturns(t) =>
      t < |a.threads| && a.threads[t].phase.Joined? && a.threads[t].phase.request < |a.state.finished|
      && a.state.finished[a.threads[t].phase.request].Some?
      && b == a.(threads := Moved(a.threads, t,
                   Returned(a.state.finished[a.threads[t].phase.request].value.outcome, FromRequest(a.threads[t].phase.request))))
  }

  function Moved(threads: seq<Thread>, t: nat, phase: Phase): seq<Thread>
    requires t < |threads|
  {
    threads[t := threads[t].(phase := phase)]
  }

  // ---- the invariant ----

  /** The thread owns a running request. */
  predicate Owns(th: Thread) {
    th.phase.Owner? || th.phase.Observed? || th.phase.Calling? || th.phase.Called?
  }

  /** What is true of one thread in a state. */
  ghost predicate ThreadOk(s: State, th: Thread, ttl: nat) {
    match th.phase
    case Ready => true
    case Joined(request) =>
      && request < |s.finished|
      && (if s.finished[request].Some? then s.finished[request].value.key == KeyOf(th)
          else KeyOf(th) in s.requests && s.requests[KeyOf(th)] == request)
    case Returned(outcome, FromCache(origin, at)) =>
      && origin < |s.finished| && s.finished[origin].Some? && s.finished[origin].value.key == KeyOf(th)
      && s.finished[origin].value.outcome == outcome && outcome.Details?
      && s.finished[origin].value.at <= at < s.finished[origin].value.at + ttl
    case Returned(outcome, FromRequest(origin)) =>
      && origin < |s.finished| && s.finished[origin].Some?
      && s.finished[origin].value.key == KeyOf(th) && s.finished[origin].value.outcome == outcome
    case Returned(outcome, Cancelled) => true
    case _ =>
      && KeyOf(th) in s.requests && s.requests[KeyOf(th)] == th.phase.request
      && th.phase.request < |s.finished| && s.finished[th.phase.request].None?
  }

  ghost predicate SuccessesOk(s: State, now: nat, ttl: nat) {
    forall key :: key in s.successes ==>
      var c := s.successes[key];
      && key !in s.requests
      && c.origin < |s.finished| && s.finished[c.origin].Some?
      && s.finished[c.origin].value.key == key && s.finished[c.origin].value.outcome == Details(Some(c.result))
      && c.expires == s.finished[c.origin].value.at + ttl && s.finished[c.origin].value.at <= now
  }

  ghost predicate RequestsOk(s: State) {
    && (forall key :: key in s.requests ==> s.requests[key] < |s.finished| && s.finished[s.requests[key]].None?)
    && forall k, l :: k in s.requests && l in s.requests && s.requests[k] == s.requests[l] ==> k == l
  }

  ghost predicate OneOwner(threads: seq<Thread>) {
    forall i, j :: 0 <= i < j < |threads| && Owns(threads[i]) && Owns(threads[j]) ==> KeyOf(threads[i]) != KeyOf(threads[j])
  }

  ghost predicate GrantsOk(s: State, grants: seq<Grant>, minGap: nat) {
    && (forall i, j :: 0 <= i < j < |grants| && grants[i].account == grants[j].account ==> grants[i].at + minGap <= grants[j].at)
    && (forall i :: 0 <= i < |grants| ==> grants[i].at + minGap <= NextAllowed(s, grants[i].account))
  }

  ghost predicate Invariant(y: System, minGap: nat, ttl: nat) {
    && RequestsOk(y.state) && SuccessesOk(y.state, y.now, ttl) && OneOwner(y.threads)
    && (forall t :: 0 <= t < |y.threads| ==> ThreadOk(y.state, y.threads[t], ttl))
    && GrantsOk(y.state, y.grants, minGap)
  }

  ghost predicate Initial(y: System) {
    y.state == EMPTY && y.grants == [] && forall t :: 0 <= t < |y.threads| ==> y.threads[t].phase.Ready?
  }

  // ---- steps keep the invariant ----

  lemma SlotKeepsGrants(s: State, grants: seq<Grant>, account: string, seen: nat, gap: nat, minGap: nat)
    requires GrantsOk(s, grants, minGap) && SlotFree(s, account, seen) && minGap <= gap
    ensures GrantsOk(SlotState(s, account, seen, gap), grants + [Grant(account, seen)], minGap)
    ensures forall a :: NextAllowed(s, a) <= NextAllowed(SlotState(s, account, seen, gap), a)
  {}

  /** A thread that is not touched stays correct when requests and results are only added. */
  lemma ThreadStays(s: State, s': State, th: Thread, ttl: nat)
    requires ThreadOk(s, th, ttl)
    requires |s.finished| <= |s'.finished| && forall i :: 0 <= i < |s.finished| ==> s'.finished[i] == s.finished[i]
    requires forall k :: k in s.requests ==> k in s'.requests && s'.requests[k] == s.requests[k]
    ensures ThreadOk(s', th, ttl)
  {}

  lemma MovedOneOwner(threads: seq<Thread>, t: nat, phase: Phase)
    requires t < |threads| && OneOwner(threads)
    requires Owns(Thread(threads[t].account, threads[t].order, phase)) ==>
               forall i :: 0 <= i < |threads| && i != t && Owns(threads[i]) ==> KeyOf(threads[i]) != KeyOf(threads[t])
    ensures OneOwner(Moved(threads, t, phase))
  {
    hide Key;
  }

  lemma EnterStateOk(s: State, key: string, now: nat, ttl: nat)
    requires RequestsOk(s) && SuccessesOk(s, now, ttl)
    ensures RequestsOk(EnterState(s, key, now)) && SuccessesOk(EnterState(s, key, now), now, ttl)
    ensures EnterEntry(s, key, now).Own? ==> key !in s.requests
    ensures EnterState(s, key, now).nextAllowed == s.nextAllowed
  {
    EnterSuccessesOk(s, key, now, ttl);
    hide RequestsOk, SuccessesOk;
  }

  lemma EnterSuccessesOk(s: State, key: string, now: nat, ttl: nat)
    requires SuccessesOk(s, now, ttl)
    ensures SuccessesOk(EnterState(s, key, now), now, ttl)
  {}

  lemma EnteringThreadOk(s: State, th: Thread, now: nat, ttl: nat)
    requires RequestsOk(s) && SuccessesOk(s, now, ttl)
    ensures ThreadOk(EnterState(s, KeyOf(th), now), th.(phase := Entered(s, KeyOf(th), now)), ttl)
  {
    hide Key;
  }

  lemma EnterKeeps(a: System, t: nat, b: System, minGap: nat, ttl: nat)
    requires Invariant(a, minGap, ttl) && Step(a, DoEnter(t), b, minGap, ttl)
    ensures Invariant(b, minGap, ttl)
  {
    hide Key, RequestsOk, SuccessesOk, OneOwner, ThreadOk, GrantsOk;
    var th := a.threads[t];
    var key := KeyOf(th);
    EnterStateOk(a.state, key, a.now, ttl);
    EnteringThreadOk(a.state, th, a.now, ttl);
    forall i | 0 <= i < |b.threads| ensures ThreadOk(b.state, b.threads[i], ttl) {
      if i != t { ThreadStays(a.state, b.state, a.threads[i], ttl); }
    }
    forall i | 0 <= i < |a.threads| && i != t && Owns(a.threads[i])
      ensures EnterEntry(a.state, key, a.now).Own? ==> KeyOf(a.threads[i]) != key
    {
      OwnerIsRegistered(a.state, a.threads[i], ttl);
    }
    MovedOneOwner(a.threads, t, Entered(a.state, key, a.now));
    SameSlots(a.state, b.state, a.grants, minGap);
  }

  lemma OwnerIsRegistered(s: State, th: Thread, ttl: nat)
    requires ThreadOk(s, th, ttl) && Owns(th)
    ensures KeyOf(th) in s.requests && s.requests[KeyOf(th)] == th.phase.request
    ensures th.phase.request < |s.finished| && s.finished[th.phase.request].None?
  {}

  lemma SameSlots(s: State, s': State, grants: seq<Grant>, minGap: nat)
    requires GrantsOk(s, grants, minGap) && s'.nextAllowed == s.nextAllowed
    ensures GrantsOk(s', grants, minGap)
  {}

  lemma FinishStateOk(s: State, key: string, request: nat, outcome: Outcome, now: nat, ttl: nat)
    requires RequestsOk(s) && SuccessesOk(s, now, ttl)
    requires key in s.requests && s.requests[key] == request && request < |s.finished| && s.finished[request].None?
    ensures RequestsOk(FinishState(s, key, request, outcome, now, ttl))
    ensures SuccessesOk(FinishState(s, key, request, outcome, now, ttl), now, ttl)
  {}

  /** A thread that does not own the finished request stays correct. */
  lemma OtherThreadAfterFinish(s: State, th: Thread, key: string, request: nat, outcome: Outcome, now: nat, ttl: nat)
    requires ThreadOk(s, th, ttl) && RequestsOk(s) && request < |s.finished| && s.finished[request].None?
    requires key in s.requests && s.requests[key] == request
    requires Owns(th) ==> KeyOf(th) != key
    ensures ThreadOk(FinishState(s, key, request, outcome, now, ttl), th, ttl)
  {
    hide Key;
  }

  lemma FinishKeeps(a: System, t: nat, b: System, minGap: nat, ttl: nat)
    requires Invariant(a, minGap, ttl) && Step(a, DoFinish(t), b, minGap, ttl)
    ensures Invariant(b, minGap, ttl)
  {
    hide Key, RequestsOk, SuccessesOk, ThreadOk, GrantsOk, FinishState;
    var th := a.threads[t];
    var key, request, outcome := KeyOf(th), th.phase.request, th.phase.outcome;
    assert ThreadOk(a.state, th, ttl);
    OwnerIsRegistered(a.state, th, ttl);
    FinishStateOk(a.state, key, request, outcome, a.now, ttl);
    forall i | 0 <= i < |b.threads| ensures ThreadOk(b.state, b.threads[i], ttl) {
      if i == t {
        FinishedThreadOk(a.state, th, a.now, ttl);
      } else {
        assert Owns(a.threads[i]) ==> KeyOf(a.threads[i]) != key;
        OtherThreadAfterFinish(a.state, a.threads[i], key, request, outcome, a.now, ttl);
      }
    }
    MovedOneOwner(a.threads, t, Returned(outcome, FromRequest(request)));
    FinishKeepsSlots(a.state, key, request, outcome, a.now, ttl);
    SameSlots(a.state, b.state, a.grants, minGap);
  }

  lemma FinishKeepsSlots(s: State, key: string, request: nat, outcome: Outcome, now: nat, ttl: nat)
    requires request < |s.finished|
    ensures FinishState(s, key, request, outcome, now, ttl).nextAllowed == s.nextAllowed
  {}

  lemma FinishedThreadOk(s: State, th: Thread, now: nat, ttl: nat)
    requires th.phase.Called? && th.phase.request < |s.finished|
    ensures ThreadOk(FinishState(s, KeyOf(th), th.phase.request, th.phase.outcome, now, ttl),
                     th.(phase := Returned(th.phase.outcome, FromRequest(th.phase.request))), ttl)
  {
    hide Key;
  }

  /** A step that only moves one thread and keeps what the thread owns. */
  lemma MoveKeeps(a: System, t: nat, phase: Phase, b: System, minGap: nat, ttl: nat)
    requires Invariant(a, minGap, ttl) && t < |a.threads| && b == a.(threads := Moved(a.threads, t, phase))
    requires ThreadOk(a.state, b.threads[t], ttl) && (Owns(b.threads[t]) ==> Owns(a.threads[t]))
    ensures Invariant(b, minGap, ttl)
  {
    hide Key, RequestsOk, SuccessesOk, ThreadOk, GrantsOk;
    MovedOneOwner(a.threads, t, phase);
  }

  lemma TrySlotKeeps(a: System, t: nat, gap: nat, b: System, minGap: nat, ttl: nat)
    requires Invariant(a, minGap, ttl) && Step(a, DoTrySlot(t, gap), b, minGap, ttl)
    ensures Invariant(b, minGap, ttl)
    ensures forall account :: NextAllowed(a.state, account) <= NextAllowed(b.state, account)
  {
    hide Key, OneOwner, GrantsOk;
    var th := a.threads[t];
    assert ThreadOk(a.state, th, ttl);
    if SlotFree(a.state, th.account, th.phase.seen) {
      SlotKeepsGrants(a.state, a.grants, th.account, th.phase.seen, gap, minGap);
      forall i | 0 <= i < |b.threads| ensures ThreadOk(b.state, b.threads[i], ttl) {
        ThreadStays(a.state, b.state, a.threads[i], ttl);
      }
      MovedOneOwner2(a.threads, t, Calling(th.phase.request));
    } else {
      MoveKeeps(a, t, Owner(th.phase.request), b, minGap, ttl);
    }
  }

  lemma MovedOneOwner2(threads: seq<Thread>, t: nat, phase: Phase)
    requires t < |threads| && OneOwner(threads) && Owns(threads[t])
    ensures OneOwner(Moved(threads, t, phase))
  {
    hide Key;
    MovedOneOwner(threads, t, phase);
  }

  lemma OtherStepKeeps(a: System, action: Action, b: System, minGap: nat, ttl: nat)
    requires Invariant(a, minGap, ttl) && Step(a, action, b, minGap, ttl)
    requires !action.DoEnter? && !action.DoFinish? && !action.DoTrySlot?
    ensures Invariant(b, minGap, ttl) && b.state == a.state
  {
    hide Key, RequestsOk, GrantsOk, OneOwner;
    match action
    case Tick(to) =>
    case ReadClock(t) =>
      assert ThreadOk(a.state, a.threads[t], ttl);
      MoveKeeps(a, t, b.threads[t].phase, b, minGap, ttl);
    case Cancel(t) =>
      assert ThreadOk(a.state, a.threads[t], ttl);
      MoveKeeps(a, t, b.threads[t].phase, b, minGap, ttl);
    case CallReturns(t, outcome) =>
      assert ThreadOk(a.state, a.threads[t], ttl);
      MoveKeeps(a, t, b.threads[t].phase, b, minGap, ttl);
    case JoinReturns(t) =>
      assert ThreadOk(a.state, a.threads[t], ttl);
      MoveKeeps(a, t, b.threads[t].phase, b, minGap, ttl);
    case _ =>
  }

  /** Every step keeps the invariant, and no account's next slot moves backwards. */
  lemma StepKeeps(a: System, action: Action, b: System, minGap: nat, ttl: nat)
    requires Invariant(a, minGap, ttl) && Step(a, action, b, minGap, ttl)
    ensures Invariant(b, minGap, ttl)
    ensures forall account :: NextAllowed(a.state, account) <= NextAllowed(b.state, account)
  {
    hide Invariant;
    match action
    case DoEnter(t) => EnterKeeps(a, t, b, minGap, ttl);
    case DoFinish(t) => FinishKeeps(a, t, b, minGap, ttl);
    case DoTrySlot(t, gap) => TrySlotKeeps(a, t, gap, b, minGap, ttl);
    case _ => OtherStepKeeps(a, action, b, minGap, ttl);
  }

  // ---- runs ----

  ghost predicate Run(systems: seq<System>, actions: seq<Action>, minGap: nat, ttl: nat) {
    && |systems| == |actions| + 1 && Initial(systems[0])
    && forall i :: 0 <= i < |actions| ==> Step(systems[i], actions[i], systems[i + 1], minGap, ttl)
  }

  lemma {:induction false} RunKeeps(systems: seq<System>, actions: seq<Action>, minGap: nat, ttl: nat, i: nat)
    requires Run(systems, actions, minGap, ttl) && i < |systems|
    ensures Invariant(systems[i], minGap, ttl)
  {
    hide Step;
    if i > 0 {
      RunKeeps(systems, actions, minGap, ttl, i - 1);
      StepKeeps(systems[i - 1], actions[i - 1], systems[i], minGap, ttl);
    }
  }

  /** An account's next slot never moves backwards in a run. */
  lemma {:induction false} SlotsMoveForward(systems: seq<System>, actions: seq<Action>, minGap: nat, ttl: nat, i: nat, j: nat, account: string)
    requires Run(systems, actions, minGap, ttl) && i <= j < |systems|
    ensures NextAllowed(systems[i].state, account) <= NextAllowed(systems[j].state, account)
    decreases j
  {
    hide Step, Invariant;
    if i < j {
      SlotsMoveForward(systems, actions, minGap, ttl, i, j - 1, account);
      RunKeeps(systems, actions, minGap, ttl, j - 1);
      StepKeeps(systems[j - 1], actions[j - 1], systems[j], minGap, ttl);
    }
  }

  /** In every run, at most one request for one account and order is running. */
  lemma SingleFlight(systems: seq<System>, actions: seq<Action>, minGap: nat, ttl: nat, i: nat, t: nat, u: nat)
    requires Run(systems, actions, minGap, ttl) && i < |systems|
    requires t < |systems[i].threads| && u < |systems[i].threads|
    requires Owns(systems[i].threads[t]) && Owns(systems[i].threads[u])
    requires systems[i].threads[t].account == systems[i].threads[u].account
    requires systems[i].threads[t].order == systems[i].threads[u].order
    ensures t == u
  {
    hide Step, RequestsOk, SuccessesOk, ThreadOk, GrantsOk;
    RunKeeps(systems, actions, minGap, ttl, i);
    assert KeyOf(systems[i].threads[t]) == KeyOf(systems[i].threads[u]);
  }

  /** Every answer in every run: one from a request has the outcome of the finished request for the same
    * key; one from the cache is the success of a request for the same key that finished less than `ttl`
    * before.
    */
  lemma AnswersAreOwn(systems: seq<System>, actions: seq<Action>, minGap: nat, ttl: nat, i: nat, t: nat)
    requires Run(systems, actions, minGap, ttl) && i < |systems| && t < |systems[i].threads|
    requires systems[i].threads[t].phase.Returned? && !systems[i].threads[t].phase.source.Cancelled?
    ensures var th, s := systems[i].threads[t], systems[i].state;
            var request := th.phase.source.origin;
            && request < |s.finished| && s.finished[request].Some?
            && s.finished[request].value.key == KeyOf(th)
            && s.finished[request].value.outcome == th.phase.outcome
            && (th.phase.source.FromCache? ==>
                  && th.phase.outcome.Details?
                  && s.finished[request].value.at <= th.phase.source.at < s.finished[request].value.at + ttl)
  {
    hide Step, RequestsOk, SuccessesOk, OneOwner, GrantsOk, Key;
    RunKeeps(systems, actions, minGap, ttl, i);
    assert ThreadOk(systems[i].state, systems[i].threads[t], ttl);
  }

  /** Only successes are cached, and while one is fresh its key gets no new request. */
  lemma FreshSuccessBlocksRequests(systems: seq<System>, actions: seq<Action>, minGap: nat, ttl: nat, i: nat, key: string)
    requires Run(systems, actions, minGap, ttl) && i < |systems| && key in systems[i].state.successes
    ensures var s := systems[i].state;
            && key !in s.requests && s.successes[key].origin < |s.finished| && ttl <= s.successes[key].expires
            && s.finished[s.successes[key].origin] == Some(Finished(key, Details(Some(s.successes[key].result)), s.successes[key].expires - ttl))
            && (systems[i].now < s.successes[key].expires ==>
                  EnterState(s, key, systems[i].now) == s && EnterEntry(s, key, systems[i].now).Cached?)
  {
    hide Step, RequestsOk, OneOwner, ThreadOk, GrantsOk;
    RunKeeps(systems, actions, minGap, ttl, i);
  }

  // ---- what a call finds ----

  /** This success is cached for the key, and no request for it is running. */
  predicate Holds(s: State, key: string, success: Success) {
    key in s.successes && s.successes[key] == success && key !in s.requests
  }

  /** Nothing is cached for the key and no request for it is running. */
  predicate Empty(s: State, key: string) {
    key !in s.successes && key !in s.requests
  }

  /** No other request for the key can finish as long as none is registered. */
  lemma OtherFinish(a: System, t: nat, b: System, key: string, minGap: nat, ttl: nat)
    requires Invariant(a, minGap, ttl) && Step(a, DoFinish(t), b, minGap, ttl) && key !in a.state.requests
    ensures KeyOf(a.threads[t]) != key
    ensures key !in b.state.requests && (key in b.state.successes <==> key in a.state.successes)
    ensures key in a.state.successes ==> b.state.successes[key] == a.state.successes[key]
  {
    hide Key, RequestsOk, SuccessesOk, GrantsOk, OneOwner;
    assert ThreadOk(a.state, a.threads[t], ttl);
  }

  /** A fresh success stays cached, whoever asks for it. */
  lemma SuccessStays(a: System, action: Action, b: System, key: string, success: Success, minGap: nat, ttl: nat)
    requires Invariant(a, minGap, ttl) && Step(a, action, b, minGap, ttl)
    requires Holds(a.state, key, success) && a.now < success.expires
    ensures Holds(b.state, key, success)
  {
    hide Key, Invariant;
    match action
    case DoFinish(t) => OtherFinish(a, t, b, key, minGap, ttl);
    case DoEnter(t) =>
    case DoTrySlot(t, gap) =>
    case _ => OtherStepKeeps(a, action, b, minGap, ttl);
  }

  predicate Enters(y: System, action: Action, key: string) {
    action.DoEnter? && action.t < |y.threads| && Key(y.threads[action.t].account, y.threads[action.t].order) == key
  }

  /** As long as nobody asks for the key, what is stored for it stays. */
  lemma UnaskedStays(a: System, action: Action, b: System, key: string, minGap: nat, ttl: nat)
    requires Invariant(a, minGap, ttl) && Step(a, action, b, minGap, ttl)
    requires key !in a.state.requests && !Enters(a, action, key)
    ensures key !in b.state.requests && (key in b.state.successes <==> key in a.state.successes)
    ensures key in a.state.successes ==> b.state.successes[key] == a.state.successes[key]
  {
    hide Key, Invariant;
    match action
    case DoFinish(t) => OtherFinish(a, t, b, key, minGap, ttl);
    case DoEnter(t) =>
    case DoTrySlot(t, gap) =>
    case _ => OtherStepKeeps(a, action, b, minGap, ttl);
  }

  /** What the end of a request leaves for its key. */
  lemma FinishLeaves(a: System, t: nat, b: System, minGap: nat, ttl: nat)
    requires Invariant(a, minGap, ttl) && Step(a, DoFinish(t), b, minGap, ttl)
    ensures var th := a.threads[t];
            var key := Key(th.account, th.order);
            && key !in b.state.requests && b.now == a.now
            && (th.phase.outcome.Details? && th.phase.outcome.result.Some? && 0 < ttl ==>
                  Holds(b.state, key, Success(th.phase.outcome.result.value, a.now + ttl, th.phase.request)))
            && (!(th.phase.outcome.Details? && th.phase.outcome.result.Some? && 0 < ttl) ==> Empty(b.state, key))
  {
    hide Key, GrantsOk, OneOwner;
    assert ThreadOk(a.state, a.threads[t], ttl);
  }

  lemma {:induction false} ClockMovesForward(systems: seq<System>, actions: seq<Action>, minGap: nat, ttl: nat, i: nat, j: nat)
    requires Run(systems, actions, minGap, ttl) && i <= j < |systems|
    ensures systems[i].now <= systems[j].now
    decreases j
  {
    if i < j {
      ClockMovesForward(systems, actions, minGap, ttl, i, j - 1);
      assert Step(systems[j - 1], actions[j - 1], systems[j], minGap, ttl);
    }
  }

  lemma {:induction false} SuccessLasts(systems: seq<System>, actions: seq<Action>, minGap: nat, ttl: nat, i: nat, j: nat, key: string, success: Success)
    requires Run(systems, actions, minGap, ttl) && i <= j < |systems|
    requires Holds(systems[i].state, key, success) && systems[j].now < success.expires
    ensures forall k :: i <= k <= j ==> Holds(systems[k].state, key, success)
    decreases j
  {
    hide Step, Invariant, Holds;
    if i < j {
      ClockMovesForward(systems, actions, minGap, ttl, j - 1, j);
      SuccessLasts(systems, actions, minGap, ttl, i, j - 1, key, success);
      RunKeeps(systems, actions, minGap, ttl, j - 1);
      SuccessStays(systems[j - 1], actions[j - 1], systems[j], key, success, minGap, ttl);
    }
  }

  lemma {:induction false} UnaskedLasts(systems: seq<System>, actions: seq<Action>, minGap: nat, ttl: nat, i: nat, j: nat, key: string)
    requires Run(systems, actions, minGap, ttl) && i <= j < |systems| && key !in systems[i].state.requests
    requires forall k :: i <= k < j ==> !Enters(systems[k], actions[k], key)
    ensures var a, b := systems[i].state, systems[j].state;
            && key !in b.requests && (key in b.successes <==> key in a.successes)
            && (key in a.successes ==> b.successes[key] == a.successes[key])
    decreases j
  {
    hide Step, Invariant, Enters;
    if i < j {
      UnaskedLasts(systems, actions, minGap, ttl, i, j - 1, key);
      RunKeeps(systems, actions, minGap, ttl, j - 1);
      UnaskedStays(systems[j - 1], actions[j - 1], systems[j], key, minGap, ttl);
    }
  }

  lemma EnterAnswers(a: System, u: nat, b: System, minGap: nat, ttl: nat)
    requires Step(a, DoEnter(u), b, minGap, ttl)
    ensures var s, th := a.state, a.threads[u];
            var key := Key(th.account, th.order);
            && u < |b.threads|
            && (key in s.successes && a.now < s.successes[key].expires ==>
                  b.threads[u].phase == Returned(Details(Some(s.successes[key].result)), FromCache(s.successes[key].origin, a.now)))
            && (key !in s.requests && (key in s.successes ==> s.successes[key].expires <= a.now) ==>
                  b.threads[u].phase == Owner(|s.finished|))
            && (key in s.requests && key !in s.successes ==> b.threads[u].phase == Joined(s.requests[key]))
  {
    hide Key;
  }

  /** In every run, a success answers every call for its key that comes before it expires, and no request for
    * the key is registered in between.
    */
  lemma SuccessAnswersCalls(systems: seq<System>, actions: seq<Action>, minGap: nat, ttl: nat, i: nat, j: nat, t: nat, u: nat, x: string)
    requires Run(systems, actions, minGap, ttl) && i < j < |actions| && actions[i] == DoFinish(t) && actions[j] == DoEnter(u)
    requires t < |systems[i].threads| && u < |systems[j].threads|
    requires systems[i].threads[t].phase.Called? && systems[i].threads[t].phase.outcome == Details(Some(x))
    requires Key(systems[j].threads[u].account, systems[j].threads[u].order)
          == Key(systems[i].threads[t].account, systems[i].threads[t].order)
    requires systems[j].now < systems[i].now + ttl
    ensures u < |systems[j + 1].threads|
    ensures systems[j + 1].threads[u].phase
         == Returned(Details(Some(x)), FromCache(systems[i].threads[t].phase.request, systems[j].now))
    ensures forall k :: i < k <= j + 1 ==>
              Key(systems[i].threads[t].account, systems[i].threads[t].order) !in systems[k].state.requests
  {
    hide Step, Invariant, Key;
    var key := Key(systems[i].threads[t].account, systems[i].threads[t].order);
    var success := Success(x, systems[i].now + ttl, systems[i].threads[t].phase.request);
    RunKeeps(systems, actions, minGap, ttl, i);
    RunKeeps(systems, actions, minGap, ttl, j);
    ClockMovesForward(systems, actions, minGap, ttl, i, j);
    FinishLeaves(systems[i], t, systems[i + 1], minGap, ttl);
    SuccessLasts(systems, actions, minGap, ttl, i + 1, j, key, success);
    SuccessStays(systems[j], actions[j], systems[j + 1], key, success, minGap, ttl);
    EnterAnswers(systems[j], u, systems[j + 1], minGap, ttl);
  }

  /** In every run, the first call for a key after the end of a request for it is answered from the cache
    * exactly if that request was a success that has not expired; otherwise it starts a new request.
    */
  lemma FirstCallAfterFinish(systems: seq<System>, actions: seq<Action>, minGap: nat, ttl: nat, i: nat, j: nat, t: nat, u: nat)
    requires Run(systems, actions, minGap, ttl) && i < j < |actions| && actions[i] == DoFinish(t) && actions[j] == DoEnter(u)
    requires t < |systems[i].threads| && u < |systems[j].threads| && systems[i].threads[t].phase.Called?
    requires Key(systems[j].threads[u].account, systems[j].threads[u].order)
          == Key(systems[i].threads[t].account, systems[i].threads[t].order)
    requires forall k :: i < k < j ==>
               !Enters(systems[k], actions[k], Key(systems[i].threads[t].account, systems[i].threads[t].order))
    ensures u < |systems[j + 1].threads|
    ensures var outcome := systems[i].threads[t].phase.outcome;
            systems[j + 1].threads[u].phase
            == if outcome.Details? && outcome.result.Some? && systems[j].now < systems[i].now + ttl
               then Returned(outcome, FromCache(systems[i].threads[t].phase.request, systems[j].now))
               else Owner(|systems[j].state.finished|)
  {
    hide Step, Invariant, Key, Enters;
    var key := Key(systems[i].threads[t].account, systems[i].threads[t].order);
    RunKeeps(systems, actions, minGap, ttl, i);
    ClockMovesForward(systems, actions, minGap, ttl, i, j);
    FinishLeaves(systems[i], t, systems[i + 1], minGap, ttl);
    UnaskedLasts(systems, actions, minGap, ttl, i + 1, j, key);
    EnterAnswers(systems[j], u, systems[j + 1], minGap, ttl);
  }

  /** In every run, a call for a key whose request is running joins that request. */
  lemma RunningRequestIsJoined(systems: seq<System>, actions: seq<Action>, minGap: nat, ttl: nat, j: nat, t: nat, u: nat)
    requires Run(systems, actions, minGap, ttl) && j < |actions| && actions[j] == DoEnter(u)
    requires t < |systems[j].threads| && u < |systems[j].threads| && Owns(systems[j].threads[t])
    requires Key(systems[j].threads[u].account, systems[j].threads[u].order)
          == Key(systems[j].threads[t].account, systems[j].threads[t].order)
    ensures u < |systems[j + 1].threads|
    ensures systems[j + 1].threads[u].phase == Joined(systems[j].threads[t].phase.request)
  {
    hide Step, RequestsOk, GrantsOk, OneOwner, Key;
    RunKeeps(systems, actions, minGap, ttl, j);
    assert ThreadOk(systems[j].state, systems[j].threads[t], ttl);
    EnterAnswers(systems[j], u, systems[j + 1], minGap, ttl);
  }

  // ---- when a slot is granted ----

  predicate GrantedAt(systems: seq<System>, actions: seq<Action>, k: nat, account: string)
    requires k < |actions| && |systems| == |actions| + 1
  {
    && actions[k].DoTrySlot? && actions[k].t < |systems[k].threads| && systems[k].threads[actions[k].t].account == account
    && |systems[k].grants| < |systems[k + 1].grants|
  }

  lemma SlotStep(a: System, action: Action, b: System, minGap: nat, ttl: nat)
    requires Invariant(a, minGap, ttl) && Step(a, action, b, minGap, ttl)
    ensures action.DoTrySlot? ==> action.t < |a.threads|
    ensures action.DoTrySlot? ==>
              var th := a.threads[action.t];
              && action.t < |b.threads| && |a.grants| <= |b.grants|
              && (NextAllowed(a.state, th.account) <= th.phase.seen <==> b.threads[action.t].phase.Calling?)
              && (b.threads[action.t].phase.Calling? <==> |a.grants| < |b.grants|)
              && (|a.grants| < |b.grants| ==> NextAllowed(b.state, th.account) == th.phase.seen + action.gap)
              && (|a.grants| == |b.grants| ==> b.state == a.state && b.grants == a.grants)
              && forall other :: other != th.account ==> NextAllowed(b.state, other) == NextAllowed(a.state, other)
    ensures !action.DoTrySlot? ==> b.state.nextAllowed == a.state.nextAllowed && b.grants == a.grants
  {
    hide Invariant, Key;
    match action
    case DoTrySlot(t, gap) =>
    case DoEnter(t) =>
    case DoFinish(t) =>
    case _ => OtherStepKeeps(a, action, b, minGap, ttl);
  }

  lemma {:induction false} SlotLasts(systems: seq<System>, actions: seq<Action>, minGap: nat, ttl: nat, i: nat, j: nat, account: string)
    requires Run(systems, actions, minGap, ttl) && i <= j < |systems|
    requires forall k :: i <= k < j ==> !GrantedAt(systems, actions, k, account)
    ensures NextAllowed(systems[j].state, account) == NextAllowed(systems[i].state, account)
    decreases j
  {
    hide Step, Invariant;
    if i < j {
      SlotLasts(systems, actions, minGap, ttl, i, j - 1, account);
      assert !GrantedAt(systems, actions, j - 1, account);
      assert systems[j - 1 + 1] == systems[j];
      RunKeeps(systems, actions, minGap, ttl, j - 1);
      SlotStep(systems[j - 1], actions[j - 1], systems[j], minGap, ttl);
    }
  }

  /** In every run, a thread gets a slot if and only if the time it read is at least the gap after the time
    * that the account's last slot was granted for; the first slot of an account is always granted.
    */
  lemma SlotNeedsGap(systems: seq<System>, actions: seq<Action>, minGap: nat, ttl: nat, i: nat, j: nat, account: string)
    requires Run(systems, actions, minGap, ttl) && i <= j < |actions|
    requires actions[j].DoTrySlot? && actions[j].t < |systems[j].threads| && systems[j].threads[actions[j].t].account == account
    requires forall k :: i <= k < j ==> !GrantedAt(systems, actions, k, account)
    requires i == 0 || GrantedAt(systems, actions, i - 1, account)
    ensures var th := systems[j].threads[actions[j].t];
            && th.phase.Observed? && actions[j].t < |systems[j + 1].threads|
            && (systems[j + 1].threads[actions[j].t].phase.Calling? <==>
                  i == 0 || (systems[i - 1].threads[actions[i - 1].t].phase.Observed?
                             && systems[i - 1].threads[actions[i - 1].t].phase.seen + actions[i - 1].gap <= th.phase.seen))
  {
    hide Invariant;
    assert Step(systems[j], actions[j], systems[j + 1], minGap, ttl);
    assert i > 0 ==> Step(systems[i - 1], actions[i - 1], systems[i], minGap, ttl);
    hide Step;
    RunKeeps(systems, actions, minGap, ttl, j);
    SlotStep(systems[j], actions[j], systems[j + 1], minGap, ttl);
    SlotLasts(systems, actions, minGap, ttl, i, j, account);
    if i > 0 {
      RunKeeps(systems, actions, minGap, ttl, i - 1);
      SlotStep(systems[i - 1], actions[i - 1], systems[i], minGap, ttl);
    }
  }

  // ---- the rate ----

  /** The instants of one account's grants within `from ... from + width`. */
  function InWindow(grants: seq<Grant>, account: string, from: nat, width: nat): seq<nat> {
    if grants == [] then []
    else
      var g := grants[|grants| - 1];
      InWindow(grants[..|grants| - 1], account, from, width)
      + if g.account == account && from <= g.at <= from + width then [g.at] else []
  }

  predicate Spaced(times: seq<nat>, gap: nat) {
    forall i :: 0 < i < |times| ==> times[i - 1] + gap <= times[i]
  }

  lemma {:induction false} SpacedIsFew(times: seq<nat>, gap: nat, width: nat)
    requires Spaced(times, gap) && gap > 0 && times != [] && times[|times| - 1] <= times[0] + width
    ensures |times| <= width / gap + 1
  {
    SpacedSpan(times, gap);
    QuotientAtLeast(|times| - 1, gap, width);
  }

  lemma {:induction false} SpacedSpan(times: seq<nat>, gap: nat)
    requires Spaced(times, gap) && times != []
    ensures times[0] + (|times| - 1) * gap <= times[|times| - 1]
  {
    var n := |times| - 1;
    if n > 0 {
      SpacedSpan(times[..n], gap);
      assert times[n - 1] + gap <= times[n];
      assert (n - 1) * gap + gap == n * gap;
    }
  }

  lemma QuotientAtLeast(n: nat, gap: nat, width: nat)
    requires gap > 0 && n * gap <= width
    ensures n <= width / gap
  {
    var q := width / gap;
    assert width < (q + 1) * gap;
    assert (n - (q + 1)) * gap == n * gap - (q + 1) * gap;
    SignOfProduct(n - (q + 1), gap);
  }

  lemma SignOfProduct(a: int, gap: nat)
    ensures a >= 0 ==> a * gap >= 0
  {}

  ghost predicate Granted(grants: seq<Grant>, account: string, at: nat) {
    exists g :: 0 <= g < |grants| && grants[g] == Grant(account, at)
  }

  ghost predicate AllGranted(times: seq<nat>, grants: seq<Grant>, account: string, from: nat, width: nat) {
    forall i :: 0 <= i < |times| ==> from <= times[i] <= from + width && Granted(grants, account, times[i])
  }

  lemma {:induction false} WindowIsGranted(grants: seq<Grant>, account: string, from: nat, width: nat)
    ensures AllGranted(InWindow(grants, account, from, width), grants, account, from, width)
  {
    if grants != [] {
      var n := |grants| - 1;
      var before := InWindow(grants[..n], account, from, width);
      WindowIsGranted(grants[..n], account, from, width);
      forall i | 0 <= i < |before| ensures Granted(grants, account, before[i]) {
      }
      assert grants[n].account == account ==> grants[n] == Grant(account, grants[n].at);
    }
  }

  lemma {:induction false} WindowIsSpaced(s: State, grants: seq<Grant>, account: string, from: nat, width: nat, minGap: nat)
    requires GrantsOk(s, grants, minGap)
    ensures var times := InWindow(grants, account, from, width);
            Spaced(times, minGap) && forall i :: 0 <= i < |times| ==> from <= times[i] <= from + width
  {
    hide Granted;
    WindowIsGranted(grants, account, from, width);
    if grants != [] {
      var n := |grants| - 1;
      var before := InWindow(grants[..n], account, from, width);
      WindowIsSpaced(s, grants[..n], account, from, width, minGap);
      WindowIsGranted(grants[..n], account, from, width);
      if before != [] { LastIsLater(s, grants, account, before[|before| - 1], minGap); }
    }
  }

  lemma LastIsLater(s: State, grants: seq<Grant>, account: string, at: nat, minGap: nat)
    requires grants != [] && GrantsOk(s, grants, minGap) && Granted(grants[..|grants| - 1], account, at)
    ensures grants[|grants| - 1].account == account ==> at + minGap <= grants[|grants| - 1].at
  {
    var n := |grants| - 1;
    var g :| 0 <= g < n && grants[..n][g] == Grant(account, at);
    assert grants[g] == Grant(account, at);
  }

  /** In every run, any window of length `width` holds at most `width / minGap + 1` grants of one account,
    * and the grants are in time order at least `minGap` apart.
    */
  lemma RateIsBounded(systems: seq<System>, actions: seq<Action>, minGap: nat, ttl: nat, i: nat, account: string, from: nat, width: nat)
    requires Run(systems, actions, minGap, ttl) && i < |systems| && minGap > 0
    ensures |InWindow(systems[i].grants, account, from, width)| <= width / minGap + 1
    ensures forall p, q :: 0 <= p < q < |systems[i].grants| && systems[i].grants[p].account == systems[i].grants[q].account ==>
              systems[i].grants[p].at + minGap <= systems[i].grants[q].at
  {
    hide Step, RequestsOk, SuccessesOk, OneOwner, ThreadOk;
    RunKeeps(systems, actions, minGap, ttl, i);
    var times := InWindow(systems[i].grants, account, from, width);
    WindowIsSpaced(systems[i].state, systems[i].grants, account, from, width, minGap);
    if times != [] {
      SpacedIsFew(times, minGap, width);
    } else {
      assert width / minGap >= 0;
    }
  }
}
