/** Whether an interrupted delivery may be completed, and by which card action, decided from the frozen
  * plan and the stored proof alone.
  */
module ReplayPlan {
  import opened Options
  import opened GoStrings
  import opened OrderQuantity
  import opened Proofs
  import opened CardDelivery
  import opened DeliveryActions
  import Decimal

  /** `original` is `None` when the frozen task is not readable. */
  datatype Run = Run(account: string, order: string, proof: Proof, original: Option<Task>)

  // ---- the plan's delivery actions ----

  function Units(task: Task, a: Action): int {
    if !Delivers(task, a) then 0
    else if a.kind.SendCard? then SendCount(a.deliveryCount, task.quantity)
    else a.templates
  }

  /** The plan's units, as mathematics counts them. */
  function Total(task: Task, plan: seq<Action>): int {
    if plan == [] then 0 else Total(task, plan[..|plan| - 1]) + Units(task, plan[|plan| - 1])
  }

  function Deliveries(task: Task, plan: seq<Action>): nat {
    if plan == [] then 0
    else Deliveries(task, plan[..|plan| - 1]) + if Delivers(task, plan[|plan| - 1]) then 1 else 0
  }

  /** The last card action that delivers. */
  function LastCard(task: Task, plan: seq<Action>): Option<Action> {
    if plan == [] then None
    else
      var a := plan[|plan| - 1];
      if Delivers(task, a) && a.kind.SendCard? then Some(a) else LastCard(task, plan[..|plan| - 1])
  }

  lemma PlanGrows(task: Task, plan: seq<Action>, i: nat)
    requires i < |plan|
    ensures Total(task, plan[..i + 1]) == Total(task, plan[..i]) + Units(task, plan[i])
    ensures Deliveries(task, plan[..i + 1]) == Deliveries(task, plan[..i]) + if Delivers(task, plan[i]) then 1 else 0
    ensures LastCard(task, plan[..i + 1])
         == if Delivers(task, plan[i]) && plan[i].kind.SendCard? then Some(plan[i]) else LastCard(task, plan[..i])
  {
    assert plan[..i + 1][..i] == plan[..i];
  }

  // ---- skipped template messages ----

  predicate IsTemplate(task: Task, a: Action) {
    Delivers(task, a) && !a.kind.SendCard?
  }

  predicate ValidSkip(task: Task, s: Skip) {
    && 0 <= s.actionIndex < |task.plan|
    && IsTemplate(task, task.plan[s.actionIndex])
    && 0 <= s.messageIndex < task.plan[s.actionIndex].templates
  }

  predicate ValidSkips(task: Task, skips: seq<Skip>) {
    && (forall i :: 0 <= i < |skips| ==> ValidSkip(task, skips[i]))
    && forall i, j :: 0 <= i < j < |skips| ==> skips[i] != skips[j]
  }

  // ---- acceptance ----

  predicate GoodCounts(p: Proof) {
    0 < p.expectedUnits && 0 <= p.preparedUnits && 0 <= p.unknownUnits && p.preparedUnits + p.unknownUnits <= p.expectedUnits
  }

  function Remaining(run: Run): int
    requires run.original.Some?
  {
    Wrap(Total(run.original.value, run.original.value.plan))
    - run.proof.preparedUnits - run.proof.unknownUnits - |run.proof.skips|
  }

  predicate OwnPlan(run: Run) {
    && run.original.Some? && run.original.value.account == run.account && run.original.value.order == run.order
    && run.original.value.plan != []
  }

  predicate Acceptable(run: Run) {
    && !run.proof.refillPending && GoodCounts(run.proof) && OwnPlan(run)
    && var task := run.original.value;
       && ValidSkips(task, run.proof.skips)
       && Wrap(Total(task, task.plan)) == run.proof.expectedUnits
       && Wrap(run.proof.preparedUnits + run.proof.unknownUnits + |run.proof.skips|) <= run.proof.expectedUnits
       && (Remaining(run) > 0 ==> Deliveries(task, task.plan) == 1 && LastCard(task, task.plan).Some?)
  }

  datatype Reason =
    | NoRun | RefillPending | BadCounts | NoPlan | WrongPlan | InvalidSkip | RepeatedSkip
    | WrongTotal | TooManyUnits | Ambiguous

  datatype Verdict = Accepted(action: Option<Action>) | Rejected(reason: Reason)

  /** What a refusal says about the run. */
  predicate Justified(run: Option<Run>, reason: Reason) {
    if run.None? then reason.NoRun? else !reason.NoRun? && JustifiedBy(run.value, reason)
  }

  predicate JustifiedBy(run: Run, reason: Reason) {
    var p := run.proof;
    match reason
    case NoRun => false
    case RefillPending => p.refillPending
    case BadCounts => !GoodCounts(p)
    case NoPlan => run.original.None?
    case WrongPlan => run.original.Some? && !OwnPlan(run)
    case InvalidSkip => OwnPlan(run) && exists i :: 0 <= i < |p.skips| && !ValidSkip(run.original.value, p.skips[i])
    case RepeatedSkip => exists i, j :: 0 <= i < j < |p.skips| && p.skips[i] == p.skips[j]
    case WrongTotal => OwnPlan(run) && Wrap(Total(run.original.value, run.original.value.plan)) != p.expectedUnits
    case TooManyUnits => Wrap(p.preparedUnits + p.unknownUnits + |p.skips|) > p.expectedUnits
    case Ambiguous =>
      && OwnPlan(run) && Remaining(run) > 0
      && var task := run.original.value;
         Deliveries(task, task.plan) != 1 || LastCard(task, task.plan).None?
  }

  lemma WrapOfSum(a: int, b: int)
    ensures Wrap(Wrap(a) + b) == Wrap(a + b)
  {
    var w := 0x1_0000_0000_0000_0000;
    var k := (a - Wrap(a)) / w;
    assert a == Wrap(a) + k * w;
  }

  lemma MultipleIsFar(d: int, w: int)
    requires w > 0
    ensures d >= 1 ==> d * w >= w
    ensures d <= -1 ==> d * w <= -w
  {}

  /** `deliveryReplayPlan`. */
  method DeliveryReplayPlan(run: Option<Run>) returns (r: Verdict)
    ensures r.Accepted? <==> run.Some? && Acceptable(run.value)
    ensures r.Accepted? ==> r.action == LastCard(run.value.original.value, run.value.original.value.plan)
    ensures r.Rejected? ==> Justified(run, r.reason)
  {
    hide Delivers, Units, Wrap, Total, Deliveries, LastCard, ValidSkips;
    if run.None? { return Rejected(NoRun); }
    var proof := run.value.proof;
    if proof.refillPending { return Rejected(RefillPending); }
    if proof.expectedUnits <= 0 || proof.preparedUnits < 0 || proof.unknownUnits < 0
       || proof.preparedUnits > proof.expectedUnits - proof.unknownUnits {
      return Rejected(BadCounts);
    }
    if run.value.original.None? { return Rejected(NoPlan); }
    var task := run.value.original.value;
    var plan := task.plan;
    if task.account != run.value.account || task.order != run.value.order || plan == [] { return Rejected(WrongPlan); }
    var planned, deliveries, templates, refill := ScanPlan(task);
    var problem := CheckSkips(task, templates, proof.skips);
    if problem.Some? { return Rejected(problem.value); }
    if planned <= 0 || planned != proof.expectedUnits { return Rejected(WrongTotal); }
    if Wrap(proof.preparedUnits + proof.unknownUnits + |proof.skips|) > planned { return Rejected(TooManyUnits); }
    var remaining := planned - proof.preparedUnits - proof.unknownUnits - |proof.skips|;
    if remaining > 0 && (deliveries != 1 || refill.None?) { return Rejected(Ambiguous); }
    return Accepted(refill);
  }

  /** An accepted run has the frozen plan of its own account and order with the expected units, sound counts and
    * no mark, and its skips are distinct messages of enabled template actions.
    */
  lemma AcceptedRunIsSound(run: Run)
    requires Acceptable(run)
    ensures run.original.Some?
    ensures var p, task := run.proof, run.original.value;
            && !p.refillPending && 0 < p.expectedUnits && 0 <= p.preparedUnits && 0 <= p.unknownUnits
            && p.preparedUnits + p.unknownUnits <= p.expectedUnits
            && task.account == run.account && task.order == run.order && task.plan != []
            && (forall i :: 0 <= i < |p.skips| ==>
                  && 0 <= p.skips[i].actionIndex < |task.plan|
                  && var a := task.plan[p.skips[i].actionIndex];
                     a.enabled && a.kind == SendTemplate && 0 <= p.skips[i].messageIndex < a.templates)
            && p.expectedUnits == Wrap(Total(task, task.plan))
            && Wrap(p.preparedUnits + p.unknownUnits + |p.skips|) <= p.expectedUnits
            && forall i, j :: 0 <= i < j < |p.skips| ==> p.skips[i] != p.skips[j]
  {
    hide Total, Deliveries, LastCard, Matches;
    assert forall i :: 0 <= i < |run.proof.skips| ==> ValidSkip(run.original.value, run.proof.skips[i]);
  }

  /** The loop over the plan: its units, its delivery actions, its template actions and its last card. */
  method ScanPlan(task: Task) returns (planned: int, deliveries: nat, templates: map<int, Action>, refill: Option<Action>)
    ensures planned == Wrap(Total(task, task.plan)) && deliveries == Deliveries(task, task.plan)
    ensures refill == LastCard(task, task.plan)
    ensures forall k :: k in templates <==> 0 <= k < |task.plan| && Delivers(task, task.plan[k]) && !task.plan[k].kind.SendCard?
    ensures forall k :: k in templates ==> templates[k] == task.plan[k]
  {
    hide Delivers, Units, Wrap, Total, Deliveries, LastCard;
    var plan := task.plan;
    planned, deliveries, templates, refill := 0, 0, map[], None;
    NothingPlanned(task);
    for i := 0 to |plan|
      invariant planned == Wrap(Total(task, plan[..i])) && deliveries == Deliveries(task, plan[..i])
      invariant refill == LastCard(task, plan[..i])
      invariant forall k :: k in templates <==> 0 <= k < i && Delivers(task, plan[k]) && !plan[k].kind.SendCard?
      invariant forall k :: k in templates ==> templates[k] == plan[k]
    {
      PlanGrows(task, plan, i);
      UnitsOfAction(task, plan[i]);
      var action := plan[i];
      if !Delivers(task, action) { WrapOfSum(Total(task, plan[..i]), 0); continue; }
      deliveries := deliveries + 1;
      if action.kind.SendCard? {
        WrapOfSum(Total(task, plan[..i]), SendCount(action.deliveryCount, task.quantity));
        planned := Wrap(planned + SendCount(action.deliveryCount, task.quantity));
        refill := Some(action);
      } else {
        WrapOfSum(Total(task, plan[..i]), action.templates);
        planned := Wrap(planned + action.templates);
        templates := templates[i := action];
      }
    }
    assert plan[..|plan|] == plan;
  }

  lemma NothingPlanned(task: Task)
    ensures Wrap(Total(task, [])) == 0 && Deliveries(task, []) == 0 && LastCard(task, []).None?
  {}

  lemma UnitsOfAction(task: Task, a: Action)
    ensures !Delivers(task, a) ==> Units(task, a) == 0
    ensures Delivers(task, a) && a.kind.SendCard? ==> Units(task, a) == SendCount(a.deliveryCount, task.quantity)
    ensures Delivers(task, a) && !a.kind.SendCard? ==> Units(task, a) == a.templates
  {}

  /** The loop over the skipped positions, which are told apart by their `"%d:%d"` texts. */
  method CheckSkips(task: Task, templates: map<int, Action>, skips: seq<Skip>) returns (problem: Option<Reason>)
    requires forall k :: k in templates <==> 0 <= k < |task.plan| && Delivers(task, task.plan[k]) && !task.plan[k].kind.SendCard?
    requires forall k :: k in templates ==> templates[k] == task.plan[k]
    ensures problem.None? <==> ValidSkips(task, skips)
    ensures problem in {None, Some(InvalidSkip), Some(RepeatedSkip)}
    ensures problem == Some(InvalidSkip) ==> exists i :: 0 <= i < |skips| && !ValidSkip(task, skips[i])
    ensures problem == Some(RepeatedSkip) ==> exists i, j :: 0 <= i < j < |skips| && skips[i] == skips[j]
  {
    hide Delivers, Decimal.PairText;
    var seen: set<string> := {};
    for j := 0 to |skips|
      invariant ValidSkips(task, skips[..j])
      invariant forall i :: 0 <= i < j ==> PositionKey(skips[i]) in seen
      invariant forall key :: key in seen ==> exists i :: 0 <= i < j && PositionKey(skips[i]) == key
    {
      var s := skips[j];
      if s.actionIndex !in templates || s.messageIndex < 0 || s.messageIndex >= templates[s.actionIndex].templates {
        assert !ValidSkip(task, skips[j]);
        return Some(InvalidSkip);
      }
      var key := PositionKey(s);
      if key in seen {
        var i :| 0 <= i < j && PositionKey(skips[i]) == key;
        Decimal.PairTextIsInjective(skips[i].actionIndex, skips[i].messageIndex, s.actionIndex, s.messageIndex);
        return Some(RepeatedSkip);
      }
      seen := seen + {key};
    }
    assert skips[..|skips|] == skips;
    return None;
  }

  function PositionKey(s: Skip): string {
    Decimal.PairText(s.actionIndex, s.messageIndex)
  }

  // ---- what acceptance means ----

  lemma {:induction false} OnlyDelivery(task: Task, plan: seq<Action>)
    requires Deliveries(task, plan) == 1 && LastCard(task, plan).Some?
    ensures exists i :: 0 <= i < |plan| && Delivers(task, plan[i]) && plan[i].kind.SendCard? && LastCard(task, plan) == Some(plan[i])
              && Total(task, plan) == SendCount(plan[i].deliveryCount, task.quantity)
              && forall j :: 0 <= j < |plan| && j != i ==> !Delivers(task, plan[j])
  {
    hide Delivers;
    var n := |plan| - 1;
    var rest := plan[..n];
    UnitsOfAction(task, plan[n]);
    if Delivers(task, plan[n]) {
      NoDeliveries(task, rest);
      assert forall j :: 0 <= j < n ==> rest[j] == plan[j];
      assert LastCard(task, plan) == Some(plan[n]);
    } else {
      OnlyDelivery(task, rest);
      var i :| 0 <= i < |rest| && Delivers(task, rest[i]) && rest[i].kind.SendCard? && LastCard(task, rest) == Some(rest[i])
              && Total(task, rest) == SendCount(rest[i].deliveryCount, task.quantity)
              && forall j :: 0 <= j < |rest| && j != i ==> !Delivers(task, rest[j]);
      assert rest[i] == plan[i] && forall j :: 0 <= j < n ==> rest[j] == plan[j];
    }
  }

  lemma {:induction false} NoDeliveries(task: Task, plan: seq<Action>)
    requires Deliveries(task, plan) == 0
    ensures forall j :: 0 <= j < |plan| ==> !Delivers(task, plan[j])
    ensures Total(task, plan) == 0 && LastCard(task, plan).None?
  {
    hide Delivers;
    if plan != [] {
      UnitsOfAction(task, plan[|plan| - 1]);
      NoDeliveries(task, plan[..|plan| - 1]);
    }
  }

  /** If units remain, the plan's one delivery action is the returned card action, nothing was skipped,
    * and that action alone accounts for all units.
    */
  lemma RefillIsUnambiguous(run: Run)
    requires Acceptable(run) && Remaining(run) > 0
    ensures var task := run.original.value;
            && run.proof.skips == []
            && exists i :: 0 <= i < |task.plan| && Delivers(task, task.plan[i]) && task.plan[i].kind.SendCard?
                 && LastCard(task, task.plan) == Some(task.plan[i])
                 && run.proof.expectedUnits == SendCount(task.plan[i].deliveryCount, task.quantity)
                 && forall j :: 0 <= j < |task.plan| && j != i ==> !Delivers(task, task.plan[j])
  {
    hide Delivers, Total, Deliveries, LastCard;
    var task := run.original.value;
    OnlyDelivery(task, task.plan);
    assert run.proof.skips != [] ==> ValidSkip(task, run.proof.skips[0]);
  }

  /** The positions of the template messages that the plan delivers. */
  ghost function Positions(task: Task, n: nat): set<Skip>
    requires n <= |task.plan|
  {
    if n == 0 then {}
    else Positions(task, n - 1) + PositionsOf(n - 1, if IsTemplate(task, task.plan[n - 1]) then task.plan[n - 1].templates else 0)
  }

  ghost function PositionsOf(action: nat, messages: nat): set<Skip> {
    if messages == 0 then {} else PositionsOf(action, messages - 1) + {Skip(action, messages - 1)}
  }

  /** The template messages of the plan's delivery actions. */
  function TemplateMessages(task: Task, n: nat): nat
    requires n <= |task.plan|
  {
    if n == 0 then 0
    else TemplateMessages(task, n - 1) + if IsTemplate(task, task.plan[n - 1]) then task.plan[n - 1].templates else 0
  }

  lemma {:induction false} PositionsOfAction(action: nat, messages: nat)
    ensures forall s :: s in PositionsOf(action, messages) <==> s.actionIndex == action && 0 <= s.messageIndex < messages
    ensures |PositionsOf(action, messages)| == messages
  {
    if messages != 0 {
      PositionsOfAction(action, messages - 1);
      var last := Skip(action, messages - 1);
      assert last !in PositionsOf(action, messages - 1);
    }
  }

  lemma {:induction false} PositionsAreMessages(task: Task, n: nat)
    requires n <= |task.plan|
    ensures forall s :: s in Positions(task, n) <==> ValidSkip(task, s) && s.actionIndex < n
    ensures |Positions(task, n)| == TemplateMessages(task, n)
  {
    hide IsTemplate, PositionsOf, ValidSkip;
    if n != 0 {
      PositionsAreMessages(task, n - 1);
      var messages := if IsTemplate(task, task.plan[n - 1]) then task.plan[n - 1].templates else 0;
      PositionsOfAction(n - 1, messages);
      forall s: Skip
        ensures ValidSkip(task, s) && s.actionIndex < n
           <==> (ValidSkip(task, s) && s.actionIndex < n - 1) || (s.actionIndex == n - 1 && 0 <= s.messageIndex < messages)
      {
        ValidSkipAt(task, s, n - 1);
      }
      assert Positions(task, n - 1) !! PositionsOf(n - 1, messages);
    } else {
      forall s: Skip ensures ValidSkip(task, s) ==> 0 <= s.actionIndex {
        ValidSkipAt(task, s, 0);
      }
    }
  }

  lemma ValidSkipAt(task: Task, s: Skip, i: nat)
    ensures ValidSkip(task, s) ==> 0 <= s.actionIndex < |task.plan|
    ensures s.actionIndex == i < |task.plan| ==>
              (ValidSkip(task, s) <==> IsTemplate(task, task.plan[i]) && 0 <= s.messageIndex < task.plan[i].templates)
  {}

  lemma {:induction false} DistinctIn(skips: seq<Skip>, all: set<Skip>)
    requires forall i :: 0 <= i < |skips| ==> skips[i] in all
    requires forall i, j :: 0 <= i < j < |skips| ==> skips[i] != skips[j]
    ensures |skips| <= |all|
  {
    if skips != [] {
      var n := |skips| - 1;
      DistinctIn(skips[..n], all - {skips[n]});
    }
  }

  /** Valid skips never exceed the plan's template messages. */
  lemma SkipsFit(task: Task, skips: seq<Skip>)
    requires ValidSkips(task, skips)
    ensures |skips| <= TemplateMessages(task, |task.plan|)
  {
    hide Delivers;
    PositionsAreMessages(task, |task.plan|);
    DistinctIn(skips, Positions(task, |task.plan|));
  }

  /** The units of an accepted run: prepared, unknown, skipped and remaining units make up the plan,
    * and none is counted beyond it exactly when the three counts add up without overflow.
    */
  lemma AcceptedUnits(run: Run)
    requires Acceptable(run) && |run.proof.skips| <= MAX_INT
    ensures var p, task := run.proof, run.original.value;
            && p.preparedUnits + p.unknownUnits + |p.skips| + Remaining(run) == p.expectedUnits == Wrap(Total(task, task.plan))
            && (Remaining(run) >= 0 <==> p.preparedUnits + p.unknownUnits + |p.skips| <= MAX_INT)
            && |p.skips| <= TemplateMessages(task, |task.plan|)
  {
    hide Total, Deliveries, LastCard;
    SkipsFit(run.original.value, run.proof.skips);
    assert run.proof.expectedUnits <= MAX_INT;
    if MAX_INT < run.proof.preparedUnits + run.proof.unknownUnits + |run.proof.skips| {
      assert run.proof.expectedUnits < run.proof.preparedUnits + run.proof.unknownUnits + |run.proof.skips|;
    }
  }

  predicate HasContent(p: Proof) {
    p.tradeText != "" || p.picList != [] || p.messages != [] || p.skips != []
  }

  /** The proof that the action loop stores after an action, for the triggers whose runs keep proofs: after
    * a failure only if something may have been sent and there is something to record.
    */
  function StoredProof(before: Proof, r: Result): Proof {
    if r.failure.None? then
      if HasContent(r.proof) then Merge(before, r.proof) else before
    else
      var all := Merge(Merge(before, r.proof), r.review);
      if (r.sent > 0 || r.failure.value.Uncertain?) && (all.refillPending || HasContent(all)) then all else before
  }

  /** What is stored after the first action with content, for a result of any of the card senders. */
  lemma StoredAfterFirst(r: Result, count: int)
    requires Bounded(r, count) && 0 < count
    ensures var p := StoredProof(NO_PROOF, r);
            if r.proof.preparedUnits + r.review.unknownUnits > 0 || r.proof.refillPending then
              && p.expectedUnits == count && p.preparedUnits == r.proof.preparedUnits && p.unknownUnits == r.review.unknownUnits
              && p.refillPending == r.proof.refillPending && p.skips == []
            else p == NO_PROOF
  {
    hide AppendTradeText;
    var all := Merge(Merge(NO_PROOF, r.proof), r.review);
    assert all.messages == r.proof.messages + r.review.messages;
    assert all.skips == [];
    if r.proof.messages == [] {
      assert r.proof.tradeText == "" && r.proof.picList == [];
      AppendNothing();
    }
  }

  lemma AppendNothing()
    ensures AppendTradeText("", "") == ""
  {}

  /** A run whose only delivery action is a card action that stopped part-way is accepted if and only if
    * no line was stranded and at least one unit is prepared or unknown; then exactly the other units
    * remain. If nothing was recorded, the empty proof is rejected. The plan's total is what the action
    * was asked to send.
    */
  lemma StoppedSenderIsAccepted(run: Run, i: nat, r: Result)
    requires OwnPlan(run) && i < |run.original.value.plan|
    requires var task := run.original.value;
             && Delivers(task, task.plan[i]) && task.plan[i].kind.SendCard?
             && (forall j :: 0 <= j < |task.plan| && j != i ==> !Delivers(task, task.plan[j]))
             && Bounded(r, Total(task, task.plan)) && 0 < Total(task, task.plan)
    requires run.proof == StoredProof(NO_PROOF, r)
    ensures var task := run.original.value;
            Total(task, task.plan) == SendCount(task.plan[i].deliveryCount, task.quantity)
    ensures Acceptable(run) <==> !r.proof.refillPending && r.proof.preparedUnits + r.review.unknownUnits > 0
    ensures LastCard(run.original.value, run.original.value.plan) == Some(run.original.value.plan[i])
    ensures Acceptable(run) ==>
              Remaining(run) == r.proof.expectedUnits - r.proof.preparedUnits - r.review.unknownUnits
  {
    hide Delivers, StoredProof, Total, Deliveries, LastCard, SendCount, Coherent;
    var task := run.original.value;
    OnlyCard(task, task.plan, i);
    StoredAfterFirst(r, SendCount(task.plan[i].deliveryCount, task.quantity));
    assert ValidSkips(task, run.proof.skips);
    assert r.failure.None? ==> r.review.messages == [];
  }

  lemma {:induction false} OnlyCard(task: Task, plan: seq<Action>, i: nat)
    requires i < |plan| && Delivers(task, plan[i]) && plan[i].kind.SendCard?
    requires forall j :: 0 <= j < |plan| && j != i ==> !Delivers(task, plan[j])
    ensures Deliveries(task, plan) == 1 && LastCard(task, plan) == Some(plan[i])
    ensures Total(task, plan) == SendCount(plan[i].deliveryCount, task.quantity)
  {
    hide Delivers;
    var n := |plan| - 1;
    UnitsOfAction(task, plan[n]);
    if i == n {
      Nothing(task, plan[..n]);
    } else {
      OnlyCard(task, plan[..n], i);
    }
  }

  lemma {:induction false} Nothing(task: Task, plan: seq<Action>)
    requires forall j :: 0 <= j < |plan| ==> !Delivers(task, plan[j])
    ensures Deliveries(task, plan) == 0 && LastCard(task, plan).None? && Total(task, plan) == 0
  {
    hide Delivers;
    if plan != [] {
      UnitsOfAction(task, plan[|plan| - 1]);
      Nothing(task, plan[..|plan| - 1]);
    }
  }

  // ---- counts beyond 64 bits ----

  /** A plan of the largest number of units: one card action and one template message. */
  function LargestTask(): Task {
    var config := Object(map[]);
    Task("a", "o",
         [Action(true, SendCard, 1, MAX_INT - 1, 0, config, 0), Action(true, SendTemplate, 0, 0, 0, config, 1)],
         "", "", Decimal.Text(1), true)
  }

  /** All its units prepared and the template message skipped as well: one unit too many, and accepted. */
  lemma OverflowingCountsAreAccepted()
    ensures var proof := NO_PROOF.(expectedUnits := MAX_INT, preparedUnits := MAX_INT, skips := [Skip(1, 0)]);
            var run := Run("a", "o", proof, Some(LargestTask()));
            Acceptable(run) && Remaining(run) == -1
  {
    hide SendCount, Decimal.Text;
    var task := LargestTask();
    var plan := task.plan;
    SendCountOfText(MAX_INT - 1, 1);
    assert plan[..1] == [plan[0]] && plan[..1][..0] == [];
    assert Total(task, plan[..1]) == Units(task, plan[0]);
  }

}
