/** Planning the actions of a paid order: deliveries first, then confirmations, each in rule order. */
module ActionPlanner {
  import opened Options
  import opened GoStrings
  import opened DeliveryActions
  import OrderSpec

  /** The actions that satisfy a condition, in order. */
  function Select(actions: seq<Action>, keep: Action -> bool): seq<Action> {
    if actions == [] then []
    else Select(actions[..|actions| - 1], keep) + if keep(actions[|actions| - 1]) then [actions[|actions| - 1]] else []
  }

  function Deliveries(task: Task): Action -> bool {
    (a: Action) => Delivers(task, a)
  }

  function Confirmations(): Action -> bool {
    (a: Action) => a.enabled && a.kind.ConfirmShipment?
  }

  function Enabled(): Action -> bool {
    (a: Action) => a.enabled
  }

  /** The plan of a task. */
  function Plan(task: Task, paid: bool, actions: seq<Action>): seq<Action> {
    if paid then Select(actions, Deliveries(task)) + Select(actions, Confirmations()) else Select(actions, Enabled())
  }

  lemma SelectSnoc(actions: seq<Action>, i: nat, keep: Action -> bool)
    requires i < |actions|
    ensures Select(actions[..i + 1], keep) == Select(actions[..i], keep) + if keep(actions[i]) then [actions[i]] else []
  {
    assert actions[..i + 1][..i] == actions[..i];
  }

  /** `plan`. */
  method MakePlan(task: Task, paid: bool, actions: seq<Action>) returns (out: seq<Action>)
    ensures out == Plan(task, paid, actions)
    // for a paid order: the enabled confirmations and the enabled deliveries that fit its specification
    ensures forall a :: a in out <==>
              && a in actions && a.enabled
              && (!paid || a.kind == ConfirmShipment || ((a.kind == SendCard || a.kind == SendTemplate) && Fits(task, a.config)))
  {
    hide Delivers, Select, Fits;
    PlanMembers(task, paid, actions);
    out := [];
    SelectNothing(Deliveries(task));
    SelectNothing(Confirmations());
    SelectNothing(Enabled());
    assert actions[..|actions|] == actions;
    if paid {
      for i := 0 to |actions|
        invariant out == Select(actions[..i], Deliveries(task))
      {
        SelectSnoc(actions, i, Deliveries(task));
        if Delivers(task, actions[i]) { out := out + [actions[i]]; }
      }
      ghost var deliveries := out;
      assert out == deliveries + [];
      for i := 0 to |actions|
        invariant out == deliveries + Select(actions[..i], Confirmations())
      {
        SelectSnoc(actions, i, Confirmations());
        if actions[i].enabled && actions[i].kind.ConfirmShipment? { out := out + [actions[i]]; }
      }
    } else {
      for i := 0 to |actions|
        invariant out == Select(actions[..i], Enabled())
      {
        SelectSnoc(actions, i, Enabled());
        if actions[i].enabled { out := out + [actions[i]]; }
      }
    }
  }

  lemma SelectNothing(keep: Action -> bool)
    ensures Select([], keep) == []
  {}

  /** `hasMatchingSendCard`: true exactly when the paid plan starts with a delivery. */
  method HasMatchingDelivery(task: Task, actions: seq<Action>) returns (has: bool)
    ensures has <==> exists i :: 0 <= i < |actions| && Delivers(task, actions[i])
    ensures has <==> exists a :: a in actions && a.enabled && (a.kind == SendCard || a.kind == SendTemplate) && Fits(task, a.config)
  {
    hide Delivers, Fits;
    forall a ensures Delivers(task, a) <==> a.enabled && (a.kind == SendCard || a.kind == SendTemplate) && Fits(task, a.config) {
      DeliversIfFits(task, a);
    }
    for i := 0 to |actions|
      invariant forall j :: 0 <= j < i ==> !Delivers(task, actions[j])
    {
      if Delivers(task, actions[i]) { return true; }
    }
    has := false;
  }

  // ---- which actions are planned ----

  /** The text of a configuration field, empty if it is missing. */
  function FieldText(fields: map<string, Field>, name: string): string {
    if name in fields && fields[name].Text? then fields[name].value else ""
  }

  /** When the specification of a configuration fits an order. The configuration must be an object whose two
    * specification fields are texts, missing or null, or the JSON null. If it names no specification, the
    * order must allow all items or have none either; otherwise both specifications must be well formed
    * and have the same names and values in the same order.
    */
  predicate Fits(task: Task, config: Config) {
    match config
    case Unreadable(_) => false
    case NotObject(_) => false
    case NullConfig => task.allowAllItems || (Blank(task.specName) && Blank(task.specValue))
    case Object(fields) =>
      var name, value := FieldText(fields, "spec_name"), FieldText(fields, "spec_value");
      && !("spec_name" in fields && fields["spec_name"].OtherField?)
      && !("spec_value" in fields && fields["spec_value"].OtherField?)
      && if Blank(name) && Blank(value) then task.allowAllItems || (Blank(task.specName) && Blank(task.specValue))
         else
           var names, values := OrderSpec.Dimensions(name), OrderSpec.Dimensions(value);
           && OrderSpec.Dimensions(task.specName) == names && OrderSpec.Dimensions(task.specValue) == values
           && |names| == |values| && forall i :: 0 <= i < |names| ==> names[i] != "" && values[i] != ""
  }

  lemma DeliversIfFits(task: Task, a: Action)
    ensures Delivers(task, a) <==> a.enabled && (a.kind == SendCard || a.kind == SendTemplate) && Fits(task, a.config)
  {
    hide Blank, OrderSpec.Dimensions, OrderSpec.Equal;
    NothingIsBlank();
    if a.config.Object? {
      var name, value := FieldText(a.config.fields, "spec_name"), FieldText(a.config.fields, "spec_value");
      OrderSpec.EqualMeansSameDimensions(task.specName, task.specValue, name, value);
    }
  }

  lemma {:induction false} SelectMembers(actions: seq<Action>, keep: Action -> bool)
    ensures forall a :: a in Select(actions, keep) <==> a in actions && keep(a)
  {
    if actions != [] {
      var n := |actions| - 1;
      SelectMembers(actions[..n], keep);
      assert actions == actions[..n] + [actions[n]];
    }
  }

  lemma PlanMembers(task: Task, paid: bool, actions: seq<Action>)
    ensures forall a :: a in Plan(task, paid, actions) <==>
              && a in actions && a.enabled
              && (!paid || a.kind == ConfirmShipment || ((a.kind == SendCard || a.kind == SendTemplate) && Fits(task, a.config)))
  {
    hide Delivers, Select, Fits;
    SelectMembers(actions, Deliveries(task));
    SelectMembers(actions, Confirmations());
    SelectMembers(actions, Enabled());
    forall a ensures Delivers(task, a) <==> a.enabled && (a.kind == SendCard || a.kind == SendTemplate) && Fits(task, a.config) {
      DeliversIfFits(task, a);
    }
  }

  // ---- the plan is a stable partition ----

  /** `indices` lists, in order, exactly the positions of the actions to keep. */
  ghost predicate Picks(actions: seq<Action>, keep: Action -> bool, indices: seq<nat>) {
    && (forall k :: 0 <= k < |indices| ==> indices[k] < |actions|)
    && (forall k, l :: 0 <= k < l < |indices| ==> indices[k] < indices[l])
    && (forall i :: 0 <= i < |actions| ==> (keep(actions[i]) <==> i in indices))
  }

  /** The positions of the actions that satisfy a condition. */
  function Indices(actions: seq<Action>, keep: Action -> bool): seq<nat> {
    if actions == [] then []
    else
      var n := |actions| - 1;
      Indices(actions[..n], keep) + if keep(actions[n]) then [n] else []
  }

  lemma {:induction false} IndicesPick(actions: seq<Action>, keep: Action -> bool)
    ensures Picks(actions, keep, Indices(actions, keep))
  {
    if actions != [] {
      IndicesPick(actions[..|actions| - 1], keep);
    }
  }

  lemma {:induction false} SelectIsIndexed(actions: seq<Action>, keep: Action -> bool)
    ensures var indices := Indices(actions, keep);
            && |Select(actions, keep)| == |indices|
            && forall k :: 0 <= k < |indices| ==> indices[k] < |actions| && Select(actions, keep)[k] == actions[indices[k]]
  {
    if actions != [] {
      var n := |actions| - 1;
      SelectIsIndexed(actions[..n], keep);
      assert forall i :: 0 <= i < n ==> actions[..n][i] == actions[i];
    }
  }

  /** Every action to keep appears once, in its original order, and nothing else does. */
  lemma SelectIsStable(actions: seq<Action>, keep: Action -> bool) returns (indices: seq<nat>)
    ensures Picks(actions, keep, indices) && |Select(actions, keep)| == |indices|
    ensures forall k :: 0 <= k < |indices| ==> Select(actions, keep)[k] == actions[indices[k]]
  {
    hide Select, Indices;
    indices := Indices(actions, keep);
    IndicesPick(actions, keep);
    SelectIsIndexed(actions, keep);
  }

  /** The paid plan lists every matching delivery once in rule order, then every enabled confirmation once
    * in rule order, and nothing else.
    */
  lemma PaidPlanIsStablePartition(task: Task, actions: seq<Action>) returns (first: seq<nat>, second: seq<nat>)
    ensures Picks(actions, Deliveries(task), first) && Picks(actions, Confirmations(), second)
    ensures |Plan(task, true, actions)| == |first| + |second|
    ensures forall k :: 0 <= k < |first| ==> Plan(task, true, actions)[k] == actions[first[k]]
    ensures forall k :: 0 <= k < |second| ==> Plan(task, true, actions)[|first| + k] == actions[second[k]]
    ensures forall i :: i in first ==> i !in second
  {
    hide Select, Matches;
    first := SelectIsStable(actions, Deliveries(task));
    second := SelectIsStable(actions, Confirmations());
    forall i | i in first ensures i !in second {
      assert Deliveries(task)(actions[i]);
    }
  }

  // ---- planning a plan ----

  lemma {:induction false} SelectAppend(a: seq<Action>, b: seq<Action>, keep: Action -> bool)
    ensures Select(a + b, keep) == Select(a, keep) + Select(b, keep)
  {
    if b == [] {
      assert a + b == a;
    } else {
      var n := |b| - 1;
      assert (a + b)[..|a + b| - 1] == a + b[..n];
      SelectAppend(a, b[..n], keep);
    }
  }

  /** Selecting again: everything when the first condition implies the second, nothing when they exclude. */
  lemma {:induction false} SelectTwice(actions: seq<Action>, keep: Action -> bool, again: Action -> bool)
    ensures (forall a :: keep(a) ==> again(a)) ==> Select(Select(actions, keep), again) == Select(actions, keep)
    ensures (forall a :: keep(a) ==> !again(a)) ==> Select(Select(actions, keep), again) == []
  {
    if actions != [] {
      var n := |actions| - 1;
      var last := if keep(actions[n]) then [actions[n]] else [];
      SelectTwice(actions[..n], keep, again);
      SelectAppend(Select(actions[..n], keep), last, again);
      assert last != [] ==> Select(last, again) == Select([], again) + if again(actions[n]) then [actions[n]] else [];
    }
  }

  /** Planning a plan changes nothing. */
  lemma PlanIsIdempotent(task: Task, paid: bool, actions: seq<Action>)
    ensures Plan(task, paid, Plan(task, paid, actions)) == Plan(task, paid, actions)
  {
    hide Select, Matches;
    if paid {
      var d, c := Select(actions, Deliveries(task)), Select(actions, Confirmations());
      SelectTwice(actions, Deliveries(task), Deliveries(task));
      SelectTwice(actions, Deliveries(task), Confirmations());
      SelectTwice(actions, Confirmations(), Deliveries(task));
      SelectTwice(actions, Confirmations(), Confirmations());
      SelectAppend(d, c, Deliveries(task));
      SelectAppend(d, c, Confirmations());
      assert d + [] == d && [] + c == c;
    } else {
      SelectTwice(actions, Enabled(), Enabled());
    }
  }

  // ---- manual delivery without delays ----

  /** One action of `immediateManualActions`; the JSON null makes the source write into a nil map. */
  function Immediate(a: Action): Action
    requires IsDelivery(a) ==> !a.config.NullConfig?
  {
    if !IsDelivery(a) then a.(delay := 0)
    else
      var fields := if a.config.Object? then a.config.fields else map[];
      a.(delay := 0, config := Object(fields["delay_override" := OtherField("true")]))
  }

  predicate NoNullConfig(actions: seq<Action>) {
    forall i :: 0 <= i < |actions| ==> IsDelivery(actions[i]) ==> !actions[i].config.NullConfig?
  }

  function AllImmediate(actions: seq<Action>): (r: seq<Action>)
    requires NoNullConfig(actions)
    ensures |r| == |actions|
  {
    seq(|actions|, i requires 0 <= i < |actions| => Immediate(actions[i]))
  }

  /** `immediateManualActions`: `None` is the panic. */
  method ImmediateManualActions(actions: seq<Action>) returns (out: Option<seq<Action>>)
    ensures out.Some? <==> NoNullConfig(actions)
    ensures out.Some? ==> out.value == AllImmediate(actions)
    // only the delay changes, and a delivery's configuration gets the mark that overrides its delay
    ensures out.Some? ==> forall i :: 0 <= i < |actions| ==>
              var a, b := actions[i], out.value[i];
              && b == a.(delay := 0, config := b.config)
              && (a.kind != SendCard && a.kind != SendTemplate ==> b.config == a.config)
              && (a.kind == SendCard || a.kind == SendTemplate ==>
                    b.config == Object((if a.config.Object? then a.config.fields else map[])["delay_override" := OtherField("true")]))
  {
    var copy: seq<Action> := [];
    for i := 0 to |actions|
      invariant NoNullConfig(actions[..i]) && copy == AllImmediate(actions[..i])
    {
      var a := actions[i];
      if IsDelivery(a) {
        if a.config.NullConfig? {
          assert actions[i].config.NullConfig?;
          return None;
        }
        var fields := if a.config.Object? then a.config.fields else map[];
        fields := fields["delay_override" := OtherField("true")];
        a := a.(config := Object(fields));
      }
      copy := copy + [a.(delay := 0)];
    }
    assert actions[..|actions|] == actions;
    out := Some(copy);
  }

  /** The action names no readable specification now, but will match any once its delay is cleared. */
  predicate BecomesMatching(task: Task, a: Action) {
    a.enabled && IsDelivery(a) && (a.config.Unreadable? || a.config.NotObject?) && AcceptsAny(task)
  }

  lemma ImmediateMatches(task: Task, a: Action)
    requires IsDelivery(a) ==> !a.config.NullConfig?
    ensures Delivers(task, Immediate(a)) <==> Delivers(task, a) || BecomesMatching(task, a)
    ensures BecomesMatching(task, a) ==> !Delivers(task, a)
    ensures Confirmations()(Immediate(a)) == Confirmations()(a) && Enabled()(Immediate(a)) == Enabled()(a)
  {
    hide SpecOf, Blank, OrderSpec.Equal, AcceptsAny;
    if IsDelivery(a) {
      ImmediateSpec(a);
      NothingIsBlank();
    }
  }

  lemma ImmediateSpec(a: Action)
    requires IsDelivery(a) && !a.config.NullConfig?
    ensures SpecOf(Immediate(a).config) == if a.config.Object? then SpecOf(a.config) else Some(Spec("", ""))
    ensures a.config.Unreadable? || a.config.NotObject? ==> SpecOf(a.config).None?
  {
    var added := Immediate(a).config.fields;
    assert "spec_name" in added <==> a.config.Object? && "spec_name" in a.config.fields;
    assert "spec_value" in added <==> a.config.Object? && "spec_value" in a.config.fields;
  }

  lemma NothingIsBlank()
    ensures Blank("")
  {}

  lemma {:induction false} SelectKeepsNoNull(actions: seq<Action>, keep: Action -> bool)
    requires NoNullConfig(actions)
    ensures NoNullConfig(Select(actions, keep))
  {
    if actions != [] {
      SelectKeepsNoNull(actions[..|actions| - 1], keep);
    }
  }

  lemma LastImmediate(actions: seq<Action>)
    requires actions != [] && NoNullConfig(actions)
    ensures var n := |actions| - 1;
            NoNullConfig(actions[..n]) && AllImmediate(actions) == AllImmediate(actions[..n]) + [Immediate(actions[n])]
  {
    hide Immediate;
  }

  /** Selecting after a change that keeps the condition is changing the selection. */
  lemma {:induction false} SelectImmediate(actions: seq<Action>, keep: Action -> bool)
    requires NoNullConfig(actions) && forall i :: 0 <= i < |actions| ==> keep(Immediate(actions[i])) == keep(actions[i])
    ensures NoNullConfig(Select(actions, keep)) && Select(AllImmediate(actions), keep) == AllImmediate(Select(actions, keep))
  {
    hide Immediate, AllImmediate;
    SelectKeepsNoNull(actions, keep);
    if actions == [] {
    } else {
      var n := |actions| - 1;
      LastImmediate(actions);
      SelectImmediate(actions[..n], keep);
      SelectKeepsNoNull(actions[..n], keep);
      var before, all := Select(actions[..n], keep), Select(actions, keep);
      if keep(actions[n]) {
        assert all == before + [actions[n]];
        LastImmediate(all);
        assert all[..|all| - 1] == before && all[|all| - 1] == actions[n];
      } else {
        assert all == before;
        assert Select(AllImmediate(actions[..n]), keep) + [] == AllImmediate(before);
      }
    }
  }

  /** A change by which some action newly qualifies, and none stops to, makes the selection longer. */
  lemma {:induction false} SelectGrows(actions: seq<Action>, keep: Action -> bool)
    requires NoNullConfig(actions) && forall i :: 0 <= i < |actions| ==> keep(actions[i]) ==> keep(Immediate(actions[i]))
    ensures |Select(actions, keep)| <= |Select(AllImmediate(actions), keep)|
    ensures (exists i :: 0 <= i < |actions| && !keep(actions[i]) && keep(Immediate(actions[i]))) ==>
              |Select(actions, keep)| < |Select(AllImmediate(actions), keep)|
  {
    hide Immediate, AllImmediate;
    if actions == [] {
    } else {
      var n := |actions| - 1;
      LastImmediate(actions);
      SelectGrows(actions[..n], keep);
      if i :| 0 <= i < n && !keep(actions[i]) && keep(Immediate(actions[i])) {
        assert !keep(actions[..n][i]) && keep(Immediate(actions[..n][i]));
      }
    }
  }

  /** Clearing delays and planning can be swapped exactly when no enabled delivery action has an unreadable
    * configuration that the order would then accept; for tasks that are not paid orders, always.
    */
  lemma ImmediateCommutesWithPlan(task: Task, paid: bool, actions: seq<Action>)
    requires NoNullConfig(actions)
    ensures NoNullConfig(Plan(task, paid, actions))
    ensures Plan(task, paid, AllImmediate(actions)) == AllImmediate(Plan(task, paid, actions))
       <==> !paid || forall i :: 0 <= i < |actions| ==> !BecomesMatching(task, actions[i])
  {
    hide Select, Immediate, Delivers, BecomesMatching;
    forall i | 0 <= i < |actions|
      ensures Deliveries(task)(Immediate(actions[i])) <==> Deliveries(task)(actions[i]) || BecomesMatching(task, actions[i])
      ensures BecomesMatching(task, actions[i]) ==> !Deliveries(task)(actions[i])
      ensures Confirmations()(Immediate(actions[i])) == Confirmations()(actions[i])
      ensures Enabled()(Immediate(actions[i])) == Enabled()(actions[i])
    {
      ImmediateMatches(task, actions[i]);
    }
    SelectKeepsNoNull(actions, Deliveries(task));
    SelectImmediate(actions, Confirmations());
    SelectImmediate(actions, Enabled());
    SelectGrows(actions, Deliveries(task));
    if forall i :: 0 <= i < |actions| ==> !BecomesMatching(task, actions[i]) {
      SelectImmediate(actions, Deliveries(task));
    }
    if paid {
      var d, c := Select(actions, Deliveries(task)), Select(actions, Confirmations());
      assert AllImmediate(d + c) == AllImmediate(d) + AllImmediate(c);
    }
  }

  /** An action whose stored configuration is a JSON array: it matched nothing, and is planned once its
    * delay was cleared.
    */
  lemma ArrayConfigurationStartsToMatch()
    ensures var task := Task("a", "o", [], "", "", "1", true);
            var a := Action(true, SendCard, 1, 1, 30, NotObject("[]"), 0);
            NoNullConfig([a]) && Plan(task, true, [a]) == [] && Plan(task, true, AllImmediate([a])) == [Immediate(a)]
  {
    hide Delivers, Immediate;
    var task := Task("a", "o", [], "", "", "1", true);
    var a := Action(true, SendCard, 1, 1, 30, NotObject("[]"), 0);
    ImmediateMatches(task, a);
    assert AllImmediate([a]) == [Immediate(a)];
  }

}
