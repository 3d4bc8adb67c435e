/** Rule actions, their configuration, and which of them deliver for an order's specification. */
module DeliveryActions {
  import opened Options
  import opened GoStrings
  import OrderSpec

  datatype Kind = SendCard | SendTemplate | ConfirmShipment | OtherKind(name: string)

  /** A field of a configuration object. */
  datatype Field = Text(value: string) | NullField | OtherField(json: string)

  /** The text of a configuration: not JSON, the JSON null, another JSON value, or an object. */
  datatype Config = Unreadable(text: string) | NullConfig | NotObject(json: string) | Object(fields: map<string, Field>)

  datatype Action = Action(enabled: bool, kind: Kind, cardID: int, deliveryCount: int, delay: int, config: Config, templates: nat)

  datatype Task = Task(
    account: string, order: string, plan: seq<Action>,
    specName: string, specValue: string, quantity: string, allowAllItems: bool)

  /** The specification in a configuration. */
  datatype Spec = Spec(name: string, value: string)

  /** A missing or null field reads as empty, a field of another type is an error. */
  function TextField(fields: map<string, Field>, name: string): Option<string> {
    if name !in fields || fields[name].NullField? then Some("")
    else if fields[name].Text? then Some(fields[name].value)
    else None
  }

  /** Reading `spec_name` and `spec_value`; `None` is an error. The JSON null leaves both empty. */
  function SpecOf(config: Config): Option<Spec> {
    match config
    case Unreadable(_) => None
    case NotObject(_) => None
    case NullConfig => Some(Spec("", ""))
    case Object(fields) =>
      var name, value := TextField(fields, "spec_name"), TextField(fields, "spec_value");
      if name.Some? && value.Some? then Some(Spec(name.value, value.value)) else None
  }

  /** The order accepts an action that names no specification. */
  predicate AcceptsAny(task: Task) {
    task.allowAllItems || (Blank(task.specName) && Blank(task.specValue))
  }

  /** `actionMatchesOrderSpec`. */
  predicate Matches(task: Task, a: Action) {
    var spec := SpecOf(a.config);
    spec.Some? &&
    if Blank(spec.value.name) && Blank(spec.value.value) then AcceptsAny(task)
    else OrderSpec.Equal(task.specName, task.specValue, spec.value.name, spec.value.value)
  }

  predicate IsDelivery(a: Action) {
    a.kind.SendCard? || a.kind.SendTemplate?
  }

  predicate Delivers(task: Task, a: Action) {
    a.enabled && IsDelivery(a) && Matches(task, a)
  }
}
