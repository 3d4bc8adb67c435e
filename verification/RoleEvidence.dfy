/** Which side of a trade an event asserts: evidence is collected from a tree whose objects are walked in
  * whatever order a map is iterated.
  */
module RoleEvidence {
  import opened Options
  import opened GoStrings

  datatype Node = Object(fields: map<string, Node>) | Array(items: seq<Node>) | Text(text: string) | Null | Other(json: string)

  datatype Role = Buyer | Seller

  /** Library functions: JSON reading and writing, lower case, the role parameter of an address, and the
    * task name inside a tag.
    */
  datatype Library = Library(
    parse: string -> Option<Node>,
    marshal: Node -> string,
    lower: string -> string,
    roleParameter: string -> string,
    tagTaskName: string -> string)

  const MAX_DEPTH: nat := 16

  // ---- what one field asserts ----

  /** `normalizedOrderRole`. */
  function NormalizedRole(lib: Library, value: string): Option<Role> {
    var role := lib.lower(Trim(value));
    if role == "seller" then Some(Seller) else if role == "buyer" then Some(Buyer) else None
  }

  /** `orderRoleFromTaskName`: the buyer's word wins. */
  function TaskNameRole(name: string): Option<Role> {
    if Contains(name, "买家") then Some(Buyer) else if Contains(name, "卖家") then Some(Seller) else None
  }

  /** `orderRoleFromURL`. */
  function AddressRole(lib: Library, address: string): Option<Role> {
    if Blank(address) then None else NormalizedRole(lib, lib.roleParameter(address))
  }

  /** `hasSystemBizTag`. */
  predicate IsSystemTag(raw: string) {
    var tag := Trim(raw);
    tag != "" && (Contains(tag, "SECURITY") || Contains(tag, "taskName") || Contains(tag, "taskId"))
  }

  function WithoutSeparators(s: string): string {
    if s == "" then "" else (if s[0] == '_' || s[0] == '-' then "" else [s[0]]) + WithoutSeparators(s[1..])
  }

  /** `normalizeEventFactKey`. */
  function FactKey(lib: Library, key: string): string {
    lib.lower(WithoutSeparators(Trim(key)))
  }

  /** `strAny`. */
  function TextOf(lib: Library, value: Node): string {
    match value
    case Text(text) => text
    case Null => ""
    case _ => lib.marshal(value)
  }

  /** The role that a field asserts by its name. */
  function FieldRole(lib: Library, key: string, value: Node): Option<Role> {
    var name, text := FactKey(lib, key), Trim(TextOf(lib, value));
    if name in {"role", "orderrole"} then NormalizedRole(lib, text)
    else if name == "taskname" then TaskNameRole(text)
    else if name == "biztag" then TaskNameRole(lib.tagTaskName(text))
    else if name in {"reminderurl", "targeturl", "url", "deeplink", "link"} then AddressRole(lib, text)
    else None
  }

  predicate FieldIsSystem(lib: Library, key: string, value: Node) {
    FactKey(lib, key) == "biztag" && IsSystemTag(Trim(TextOf(lib, value)))
  }

  // ---- what a tree asserts ----

  /** The value embedded in a text as JSON. */
  function Embedded(lib: Library, text: string): Option<Node> {
    var trimmed := Trim(text);
    if "{" <= trimmed || "[" <= trimmed then lib.parse(trimmed) else None
  }

  /** A question about single fields, asked of every field within the depth limit. */
  type Question = (string, Node) -> bool

  predicate Holds(lib: Library, node: Node, depth: nat, q: Question)
    decreases if depth <= MAX_DEPTH then MAX_DEPTH + 1 - depth else 0
  {
    depth <= MAX_DEPTH &&
    match node
    case Object(fields) => exists key :: key in fields && (q(key, fields[key]) || Holds(lib, fields[key], depth + 1, q))
    case Array(items) => exists i :: 0 <= i < |items| && Holds(lib, items[i], depth + 1, q)
    case Text(text) => Embedded(lib, text).Some? && Holds(lib, Embedded(lib, text).value, depth + 1, q)
    case _ => false
  }

  function AssertsRole(lib: Library, role: Role): Question {
    (key: string, value: Node) => FieldRole(lib, key, value) == Some(role)
  }

  function AssertsSystem(lib: Library): Question {
    (key: string, value: Node) => FieldIsSystem(lib, key, value)
  }

  // ---- paths, as an independent definition ----

  /** One step down the tree: into a field, an element or an embedded text. */
  ghost predicate Child(lib: Library, a: Node, b: Node) {
    match a
    case Object(fields) => exists key :: key in fields && fields[key] == b
    case Array(items) => b in items
    case Text(text) => Embedded(lib, text) == Some(b)
    case _ => false
  }

  /** A path from the root to an object with a field that answers the question. */
  ghost predicate Path(lib: Library, path: seq<Node>, q: Question) {
    && path != []
    && (forall i :: 0 < i < |path| ==> Child(lib, path[i - 1], path[i]))
    && var last := path[|path| - 1];
       last.Object? && exists key :: key in last.fields && q(key, last.fields[key])
  }

  /** A tree answers a question exactly when a path of at most seventeen nodes from its root does. */
  lemma {:induction false} HoldsMeansPath(lib: Library, node: Node, depth: nat, q: Question)
    requires depth <= MAX_DEPTH + 1
    ensures Holds(lib, node, depth, q) <==>
              exists path :: Path(lib, path, q) && path[0] == node && depth + |path| <= MAX_DEPTH + 1
    decreases MAX_DEPTH + 1 - depth
  {
    if depth <= MAX_DEPTH {
      forall child | Child(lib, node, child)
        ensures Holds(lib, child, depth + 1, q) <==>
                  exists path :: Path(lib, path, q) && path[0] == child && depth + 1 + |path| <= MAX_DEPTH + 1
      {
        HoldsMeansPath(lib, child, depth + 1, q);
      }
      if Holds(lib, node, depth, q) {
        PathFromStep(lib, node, depth, q);
      }
      if path :| Path(lib, path, q) && path[0] == node && depth + |path| <= MAX_DEPTH + 1 {
        StepFromPath(lib, node, depth, q, path);
      }
    }
  }

  lemma StepFromPath(lib: Library, node: Node, depth: nat, q: Question, path: seq<Node>)
    requires depth <= MAX_DEPTH
    requires Path(lib, path, q) && path[0] == node && depth + |path| <= MAX_DEPTH + 1
    requires |path| > 1 && Path(lib, path[1..], q) ==> Holds(lib, path[1], depth + 1, q)
    ensures Holds(lib, node, depth, q)
  {
    hide Holds;
    HoldsOneStep(lib, node, depth, q);
    if |path| > 1 {
      assert Child(lib, path[0], path[1]);
      var rest := path[1..];
      assert forall i :: 0 < i < |rest| ==> Child(lib, rest[i - 1], rest[i]) by {
        assert forall i :: 0 <= i < |rest| ==> rest[i] == path[i + 1];
      }
    }
  }

  ghost predicate AnswersHere(node: Node, q: Question) {
    node.Object? && exists key :: key in node.fields && q(key, node.fields[key])
  }

  lemma HoldsOneStep(lib: Library, node: Node, depth: nat, q: Question)
    requires depth <= MAX_DEPTH
    ensures Holds(lib, node, depth, q) <==>
              AnswersHere(node, q) || exists child :: Child(lib, node, child) && Holds(lib, child, depth + 1, q)
  {
    match node
    case Object(fields) =>
      if Holds(lib, node, depth, q) {
        var key :| key in fields && (q(key, fields[key]) || Holds(lib, fields[key], depth + 1, q));
        assert Child(lib, node, fields[key]);
      }
    case Array(items) =>
      if Holds(lib, node, depth, q) {
        var i :| 0 <= i < |items| && Holds(lib, items[i], depth + 1, q);
        assert Child(lib, node, items[i]);
      }
    case Text(text) =>
      if Holds(lib, node, depth, q) {
        assert Child(lib, node, Embedded(lib, text).value);
      }
    case _ =>
  }

  lemma PathFromStep(lib: Library, node: Node, depth: nat, q: Question)
    requires depth <= MAX_DEPTH && Holds(lib, node, depth, q)
    requires forall child :: Child(lib, node, child) && Holds(lib, child, depth + 1, q) ==>
               exists path :: Path(lib, path, q) && path[0] == child && depth + 1 + |path| <= MAX_DEPTH + 1
    ensures exists path :: Path(lib, path, q) && path[0] == node && depth + |path| <= MAX_DEPTH + 1
  {
    hide Holds, Child;
    HoldsOneStep(lib, node, depth, q);
    if AnswersHere(node, q) {
      assert Path(lib, [node], q);
    } else {
      var child :| Child(lib, node, child) && Holds(lib, child, depth + 1, q);
      var path :| Path(lib, path, q) && path[0] == child && depth + 1 + |path| <= MAX_DEPTH + 1;
      PathGrows(lib, node, path, q);
      assert Path(lib, [node] + path, q);
    }
  }

  lemma PathGrows(lib: Library, node: Node, path: seq<Node>, q: Question)
    requires Path(lib, path, q) && Child(lib, node, path[0])
    ensures Path(lib, [node] + path, q)
  {
    hide Child;
    var longer := [node] + path;
    assert forall i :: 0 < i < |longer| ==> longer[i] == path[i - 1];
    assert longer[|longer| - 1] == path[|path| - 1];
    forall i | 0 < i < |longer| ensures Child(lib, longer[i - 1], longer[i]) {
      if i > 1 { assert Child(lib, path[i - 2], path[i - 1]); }
    }
  }

  // ---- collecting ----

  /** What some part of an event asserts. */
  datatype Evidence = Evidence(buyer: bool, seller: bool, system: bool)

  const NO_EVIDENCE := Evidence(false, false, false)

  function Both(a: Evidence, b: Evidence): Evidence {
    Evidence(a.buyer || b.buyer, a.seller || b.seller, a.system || b.system)
  }

  function FieldEvidence(lib: Library, key: string, value: Node): Evidence {
    Evidence(AssertsRole(lib, Buyer)(key, value), AssertsRole(lib, Seller)(key, value), AssertsSystem(lib)(key, value))
  }

  function TreeEvidence(lib: Library, node: Node, depth: nat): Evidence {
    Evidence(Holds(lib, node, depth, AssertsRole(lib, Buyer)), Holds(lib, node, depth, AssertsRole(lib, Seller)),
             Holds(lib, node, depth, AssertsSystem(lib)))
  }

  /** Some of the given fields, or the trees in them, answer the question. */
  predicate HoldsIn(lib: Library, fields: map<string, Node>, keys: set<string>, depth: nat, q: Question) {
    exists key :: key in fields && key in keys && (q(key, fields[key]) || Holds(lib, fields[key], depth + 1, q))
  }

  function FieldsEvidence(lib: Library, fields: map<string, Node>, keys: set<string>, depth: nat): Evidence {
    Evidence(HoldsIn(lib, fields, keys, depth, AssertsRole(lib, Buyer)), HoldsIn(lib, fields, keys, depth, AssertsRole(lib, Seller)),
             HoldsIn(lib, fields, keys, depth, AssertsSystem(lib)))
  }

  lemma FieldsGrow(lib: Library, fields: map<string, Node>, keys: set<string>, key: string, depth: nat)
    requires key in fields
    ensures FieldsEvidence(lib, fields, keys + {key}, depth)
         == Both(FieldsEvidence(lib, fields, keys, depth),
                 Both(FieldEvidence(lib, key, fields[key]), TreeEvidence(lib, fields[key], depth + 1)))
  {
    hide Holds, FieldRole, FieldIsSystem;
  }

  /** All fields of an object make up its evidence, none make up nothing. */
  lemma AllFields(lib: Library, fields: map<string, Node>, depth: nat)
    requires depth <= MAX_DEPTH
    ensures FieldsEvidence(lib, fields, fields.Keys, depth) == TreeEvidence(lib, Object(fields), depth)
    ensures FieldsEvidence(lib, fields, {}, depth) == NO_EVIDENCE
  {
    hide FieldRole, FieldIsSystem;
    forall q: Question ensures HoldsIn(lib, fields, fields.Keys, depth, q) <==> Holds(lib, Object(fields), depth, q) {
    }
  }

  /** The evidence of the first `n` elements. */
  function ItemsEvidence(lib: Library, items: seq<Node>, n: nat, depth: nat): Evidence
    requires n <= |items|
  {
    if n == 0 then NO_EVIDENCE else Both(ItemsEvidence(lib, items, n - 1, depth), TreeEvidence(lib, items[n - 1], depth + 1))
  }

  lemma {:induction false} ItemsHold(lib: Library, items: seq<Node>, n: nat, depth: nat)
    requires n <= |items|
    ensures ItemsEvidence(lib, items, n, depth).buyer <==> exists i :: 0 <= i < n && Holds(lib, items[i], depth + 1, AssertsRole(lib, Buyer))
    ensures ItemsEvidence(lib, items, n, depth).seller <==> exists i :: 0 <= i < n && Holds(lib, items[i], depth + 1, AssertsRole(lib, Seller))
    ensures ItemsEvidence(lib, items, n, depth).system <==> exists i :: 0 <= i < n && Holds(lib, items[i], depth + 1, AssertsSystem(lib))
  {
    hide Holds, FieldRole, FieldIsSystem;
    if n != 0 {
      ItemsHold(lib, items, n - 1, depth);
    }
  }

  lemma AllItems(lib: Library, items: seq<Node>, depth: nat)
    requires depth <= MAX_DEPTH
    ensures ItemsEvidence(lib, items, |items|, depth) == TreeEvidence(lib, Array(items), depth)
  {
    hide FieldRole, FieldIsSystem, ItemsEvidence;
    ItemsHold(lib, items, |items|, depth);
  }

  datatype Facts = Facts(role: Option<Role>, conflict: bool, system: bool)

  predicate SaysBuyer(f: Facts) {
    f.role.Some? && f.role.value.Buyer?
  }

  predicate SaysSeller(f: Facts) {
    f.role.Some? && f.role.value.Seller?
  }

  /** `after` adds exactly this evidence to `before`; a conflict may leave either role. */
  predicate Adds(before: Facts, e: Evidence, after: Facts) {
    && (after.conflict <==> before.conflict || ((SaysBuyer(before) || e.buyer) && (SaysSeller(before) || e.seller)))
    && (before.role.Some? ==> after.role == before.role)
    && (before.role.None? ==> (after.role.None? <==> !e.buyer && !e.seller))
    && (before.role.None? && SaysBuyer(after) ==> e.buyer)
    && (before.role.None? && SaysSeller(after) ==> e.seller)
    && (after.system <==> before.system || e.system)
  }

  lemma AddsCompose(a: Facts, e: Evidence, b: Facts, e': Evidence, c: Facts)
    requires Adds(a, e, b) && Adds(b, e', c)
    ensures Adds(a, Both(e, e'), c)
  {}

  class RawFields {
    var facts: Facts

    constructor (facts: Facts)
      ensures this.facts == facts
    {
      this.facts := facts;
    }

    /** `setOrderRole`. */
    method SetOrderRole(role: Option<Role>)
      modifies this
      ensures Adds(old(facts), Evidence(role == Some(Buyer), role == Some(Seller), false), facts)
    {
      if role.None? { return; }
      assert role.value.Buyer? || role.value.Seller?;
      if facts.role.Some? && facts.role != role {
        facts := facts.(conflict := true);
        return;
      }
      facts := facts.(role := role);
    }

    /** The role and system part of `supplementEventFactByKey`. */
    method SupplementByKey(lib: Library, key: string, value: Node)
      modifies this
      ensures Adds(old(facts), FieldEvidence(lib, key, value), facts)
      // in the words of the platform
      ensures Adds(old(facts), Evidence(FieldSays(lib, "buyer")(key, value), FieldSays(lib, "seller")(key, value),
                                        FieldIsSecurity(lib)(key, value)), facts)
    {
      hide FieldRole, FieldIsSystem, FieldSays, FieldIsSecurity;
      RoleFieldSays(lib, key, value);
      TagFieldIsSecurity(lib, key, value);
      SetOrderRole(FieldRole(lib, key, value));
      if FieldIsSystem(lib, key, value) { facts := facts.(system := true); }
    }

    /** `supplementEventFacts`: objects are walked in any order. */
    method Supplement(lib: Library, node: Node, depth: nat)
      modifies this
      ensures Adds(old(facts), TreeEvidence(lib, node, depth), facts)
      decreases if depth <= MAX_DEPTH then MAX_DEPTH + 1 - depth else 0, 1
    {
      hide FieldRole, FieldIsSystem, FieldsEvidence, ItemsEvidence, Embedded;
      if depth > MAX_DEPTH { return; }
      match node
      case Object(fields) =>
        AllFields(lib, fields, depth);
        SupplementObject(lib, fields, depth);
      case Array(items) =>
        AllItems(lib, items, depth);
        SupplementArray(lib, items, depth);
      case Text(text) =>
        var embedded := Embedded(lib, text);
        if embedded.Some? { Supplement(lib, embedded.value, depth + 1); }
      case _ =>
    }

    method SupplementObject(lib: Library, fields: map<string, Node>, depth: nat)
      requires depth <= MAX_DEPTH
      modifies this
      ensures Adds(old(facts), FieldsEvidence(lib, fields, fields.Keys, depth), facts)
      decreases MAX_DEPTH + 1 - depth, 0
    {
      hide FieldRole, FieldIsSystem, Holds, TreeEvidence, FieldEvidence, FieldsEvidence, Adds;
      var rest := fields.Keys;
      ghost var visited: set<string> := {};
      AllFields(lib, fields, depth);
      AddsNothing(facts);
      while rest != {}
        invariant visited + rest == fields.Keys
        invariant Adds(old(facts), FieldsEvidence(lib, fields, visited, depth), facts)
        decreases |rest|
      {
        var key :| key in rest;
        ghost var start := facts;
        SupplementByKey(lib, key, fields[key]);
        ghost var middle := facts;
        Supplement(lib, fields[key], depth + 1);
        AddsCompose(start, FieldEvidence(lib, key, fields[key]), middle, TreeEvidence(lib, fields[key], depth + 1), facts);
        FieldsGrow(lib, fields, visited, key, depth);
        AddsCompose(old(facts), FieldsEvidence(lib, fields, visited, depth), start,
                    Both(FieldEvidence(lib, key, fields[key]), TreeEvidence(lib, fields[key], depth + 1)), facts);
        visited, rest := visited + {key}, rest - {key};
      }
      assert visited == fields.Keys;
    }

    method SupplementArray(lib: Library, items: seq<Node>, depth: nat)
      requires depth <= MAX_DEPTH
      modifies this
      ensures Adds(old(facts), ItemsEvidence(lib, items, |items|, depth), facts)
      decreases MAX_DEPTH + 1 - depth, 0
    {
      hide Holds, TreeEvidence, Adds;
      AddsNothing(facts);
      for i := 0 to |items|
        invariant Adds(old(facts), ItemsEvidence(lib, items, i, depth), facts)
      {
        ghost var start := facts;
        Supplement(lib, items[i], depth + 1);
        AddsCompose(old(facts), ItemsEvidence(lib, items, i, depth), start, TreeEvidence(lib, items[i], depth + 1), facts);
      }
    }

    /** The last step of `fieldsFromRaw` and the role gates of `ExtractTaskFromWS`: what the fixed places
      * said is completed from the whole event, and then a task may be made or not.
      */
    method AdmitsTask(lib: Library, raw: Node, direction: string, simplified: bool, contentType: string) returns (ok: bool)
      modifies this
      ensures Adds(old(facts), TreeEvidence(lib, raw, 0), facts)
      ensures ok <==> Admissible(old(facts), TreeEvidence(lib, raw, 0), direction, simplified, contentType)
      // in terms of the fields that the event contains, at most seventeen nodes deep
      ensures ok <==>
                && !old(facts).conflict && old(facts).role != Some(Buyer) && !Contained(lib, raw, FieldSays(lib, "buyer"))
                && (direction == "2" ==>
                      simplified || contentType == "6" || old(facts).system || Contained(lib, raw, FieldIsSecurity(lib)))
      ensures old(facts) == Facts(None, false, old(facts).system) ==>
                && (facts.conflict <==> Contained(lib, raw, FieldSays(lib, "buyer")) && Contained(lib, raw, FieldSays(lib, "seller")))
                && (!facts.conflict ==>
                      facts.role == if Contained(lib, raw, FieldSays(lib, "buyer")) then Some(Buyer)
                                    else if Contained(lib, raw, FieldSays(lib, "seller")) then Some(Seller) else None)
    {
      hide TreeEvidence, Contained;
      EvidenceIsContained(lib, raw);
      Supplement(lib, raw, 0);
      if facts.conflict { return false; }
      if facts.role == Some(Buyer) { return false; }
      if direction == "2" && !(simplified || direction == "1" || contentType == "6" || facts.system) { return false; }
      ok := true;
    }
  }

  lemma AddsNothing(f: Facts)
    ensures Adds(f, NO_EVIDENCE, f)
  {}

  /** The gates in terms of the evidence alone: no buyer evidence anywhere, no earlier conflict, and a
    * system message unless the direction allows others.
    */
  predicate Admissible(before: Facts, e: Evidence, direction: string, simplified: bool, contentType: string) {
    && !before.conflict && !SaysBuyer(before) && !e.buyer
    && (direction == "2" ==> simplified || contentType == "6" || before.system || e.system)
  }

  /** Two walks of one event, in whatever orders, agree on the conflict, the system mark and, without a
    * conflict, the role; the conflict is set exactly when both sides are asserted by the fixed places or
    * along a path within the depth limit.
    */
  lemma WalksAgree(lib: Library, raw: Node, before: Facts, a: Facts, b: Facts)
    requires Adds(before, TreeEvidence(lib, raw, 0), a) && Adds(before, TreeEvidence(lib, raw, 0), b)
    requires !before.conflict
    ensures a.conflict == b.conflict && a.system == b.system && (!a.conflict ==> a.role == b.role)
    ensures a.conflict <==>
              && (SaysBuyer(before) || AssertedOnPath(lib, raw, AssertsRole(lib, Buyer)))
              && (SaysSeller(before) || AssertedOnPath(lib, raw, AssertsRole(lib, Seller)))
    ensures a.system <==> before.system || AssertedOnPath(lib, raw, AssertsSystem(lib))
  {
    hide FieldRole, FieldIsSystem, Holds, Path;
    HoldsMeansPath(lib, raw, 0, AssertsRole(lib, Buyer));
    HoldsMeansPath(lib, raw, 0, AssertsRole(lib, Seller));
    HoldsMeansPath(lib, raw, 0, AssertsSystem(lib));
  }

  ghost predicate AssertedOnPath(lib: Library, raw: Node, q: Question) {
    exists path :: Path(lib, path, q) && path[0] == raw && |path| <= MAX_DEPTH + 1
  }

  // ---- what fields say, in the words of the platform ----

  /** The characters that name a side in a task name. */
  function SideWord(side: string): string {
    if side == "buyer" then "\U{4E70}\U{5BB6}" else "\U{5356}\U{5BB6}"
  }

  /** A task name speaks for a side if it contains its word; if it contains both, for the buyer. */
  predicate TaskNameSays(name: string, side: string) {
    Contains(name, SideWord(side)) && (side == "seller" ==> !Contains(name, SideWord("buyer")))
  }

  /** The text of a field, without the white space around it. */
  function FieldText(lib: Library, value: Node): string {
    if value.Text? then Trim(value.text) else if value.Null? then "" else Trim(lib.marshal(value))
  }

  /** The field says that the account is on this side, "buyer" or "seller". */
  function FieldSays(lib: Library, side: string): Question {
    (key: string, value: Node) =>
      var name, text := FactKey(lib, key), FieldText(lib, value);
      || ((name == "role" || name == "orderrole") && lib.lower(text) == side)
      || (name == "taskname" && TaskNameSays(text, side))
      || (name == "biztag" && TaskNameSays(lib.tagTaskName(text), side))
      || ((name == "reminderurl" || name == "targeturl" || name == "url" || name == "deeplink" || name == "link")
          && text != "" && lib.lower(Trim(lib.roleParameter(text))) == side)
  }

  /** The field is the tag of a system message. */
  function FieldIsSecurity(lib: Library): Question {
    (key: string, value: Node) =>
      && FactKey(lib, key) == "biztag"
      && (Contains(FieldText(lib, value), "SECURITY") || Contains(FieldText(lib, value), "taskName")
          || Contains(FieldText(lib, value), "taskId"))
  }

  /** Some object at most seventeen nodes deep, counting the root, has such a field. */
  ghost predicate Contained(lib: Library, raw: Node, q: Question) {
    exists path :: Path(lib, path, q) && path[0] == raw && |path| <= 17
  }

  lemma TrimmedAgain(s: string)
    ensures Trim(Trim(s)) == Trim(s) && (Blank(Trim(s)) <==> Trim(s) == "")
  {
    TrimOfTrimmed(Trim(s));
  }

  lemma RoleFieldSays(lib: Library, key: string, value: Node)
    ensures FieldRole(lib, key, value) == Some(Buyer) <==> FieldSays(lib, "buyer")(key, value)
    ensures FieldRole(lib, key, value) == Some(Seller) <==> FieldSays(lib, "seller")(key, value)
  {
    hide FieldRole, FieldSays, Trim, FactKey;
    FieldTextIsTrimmed(lib, value);
    NamedFieldSays(lib, key, value, Buyer, "buyer");
    NamedFieldSays(lib, key, value, Seller, "seller");
  }

  lemma NamedFieldSays(lib: Library, key: string, value: Node, role: Role, side: string)
    requires (role.Buyer? && side == "buyer") || (role.Seller? && side == "seller")
    requires Trim(TextOf(lib, value)) == FieldText(lib, value) == Trim(FieldText(lib, value))
    ensures FieldRole(lib, key, value) == Some(role) <==> FieldSays(lib, side)(key, value)
  {
    hide Trim, FactKey, TaskNameRole, TaskNameSays, NormalizedRole, AddressRole, TextOf, FieldText;
    var text := FieldText(lib, value);
    TaskNameSpeaks(text);
    TaskNameSpeaks(lib.tagTaskName(text));
    RoleTextSays(lib, text, role, side);
    AddressSays(lib, text, role, side);
  }

  lemma RoleTextSays(lib: Library, text: string, role: Role, side: string)
    requires (role.Buyer? && side == "buyer") || (role.Seller? && side == "seller")
    requires Trim(text) == text
    ensures NormalizedRole(lib, text) == Some(role) <==> lib.lower(text) == side
  {
    hide Trim;
  }

  lemma AddressSays(lib: Library, text: string, role: Role, side: string)
    requires (role.Buyer? && side == "buyer") || (role.Seller? && side == "seller")
    requires Trim(text) == text
    ensures AddressRole(lib, text) == Some(role) <==> text != "" && lib.lower(Trim(lib.roleParameter(text))) == side
  {
    hide Trim;
    TrimmedAgain(lib.roleParameter(text));
  }

  lemma TaskNameSpeaks(name: string)
    ensures TaskNameRole(name) == Some(Buyer) <==> TaskNameSays(name, "buyer")
    ensures TaskNameRole(name) == Some(Seller) <==> TaskNameSays(name, "seller")
  {
    hide Contains;
    assert SideWord("buyer") == "买家" && SideWord("seller") == "卖家";
  }

  lemma NothingToTrim()
    ensures Trim("") == ""
  {}

  lemma TagFieldIsSecurity(lib: Library, key: string, value: Node)
    ensures FieldIsSystem(lib, key, value) <==> FieldIsSecurity(lib)(key, value)
  {
    hide Trim, FactKey;
    FieldTextIsTrimmed(lib, value);
  }

  lemma FieldTextIsTrimmed(lib: Library, value: Node)
    ensures Trim(TextOf(lib, value)) == FieldText(lib, value)
    ensures Trim(FieldText(lib, value)) == FieldText(lib, value)
  {
    hide Trim;
    NothingToTrim();
    TrimmedAgain(TextOf(lib, value));
  }

  lemma SamePaths(lib: Library, raw: Node, q: Question, q': Question)
    requires forall key, value :: q(key, value) <==> q'(key, value)
    ensures Holds(lib, raw, 0, q) <==> Contained(lib, raw, q')
  {
    hide Holds, Child;
    HoldsMeansPath(lib, raw, 0, q);
    forall path ensures Path(lib, path, q) <==> Path(lib, path, q') {
    }
  }

  /** The evidence of an event is what its fields say. */
  lemma EvidenceIsContained(lib: Library, raw: Node)
    ensures TreeEvidence(lib, raw, 0)
         == Evidence(Contained(lib, raw, FieldSays(lib, "buyer")), Contained(lib, raw, FieldSays(lib, "seller")),
                     Contained(lib, raw, FieldIsSecurity(lib)))
  {
    hide Holds, Contained, FieldRole, FieldIsSystem, FieldSays, FieldIsSecurity;
    forall key, value
      ensures AssertsRole(lib, Buyer)(key, value) <==> FieldSays(lib, "buyer")(key, value)
      ensures AssertsRole(lib, Seller)(key, value) <==> FieldSays(lib, "seller")(key, value)
      ensures AssertsSystem(lib)(key, value) <==> FieldIsSecurity(lib)(key, value)
    {
      RoleFieldSays(lib, key, value);
      TagFieldIsSecurity(lib, key, value);
    }
    SamePaths(lib, raw, AssertsRole(lib, Buyer), FieldSays(lib, "buyer"));
    SamePaths(lib, raw, AssertsRole(lib, Seller), FieldSays(lib, "seller"));
    SamePaths(lib, raw, AssertsSystem(lib), FieldIsSecurity(lib));
  }

  /** Only texts that begin like a JSON object or array are looked into. */
  lemma EmbeddedTexts(lib: Library, text: string)
    ensures Embedded(lib, text)
         == if Trim(text) != "" && (Trim(text)[0] == '{' || Trim(text)[0] == '[') then lib.parse(Trim(text)) else None
  {
    hide Trim;
    assert Trim(text) != "" ==> Trim(text)[..1] == [Trim(text)[0]];
  }

  /** Underscores, hyphens and white space around a field name do not matter, and nothing else is dropped. */
  lemma FactKeyOfName(lib: Library, before: string, name: string, other: string, after: string)
    requires forall i :: 0 <= i < |before| ==> IsSpace(before[i])
    requires forall i :: 0 <= i < |after| ==> IsSpace(after[i])
    requires name != "" && other != "" && Trimmed(name) && Trimmed(other)
    requires forall i :: 0 <= i < |name| ==> name[i] != '_' && name[i] != '-'
    requires forall i :: 0 <= i < |other| ==> other[i] != '_' && other[i] != '-'
    ensures FactKey(lib, before + name + after) == lib.lower(name)
    ensures FactKey(lib, name + "_" + other) == FactKey(lib, name + "-" + other) == lib.lower(name + other)
  {
    hide TrimLeft, TrimRight, WithoutSeparators;
    TrimStripsLeft(before, name + after);
    TrimStripsRight(name, after);
    assert before + name + after == before + (name + after);
    TrimOfTrimmed(name + "_" + other);
    TrimOfTrimmed(name + "-" + other);
    PlainName(name);
    PlainName(other);
    SeparatorsOfParts(name, "_" + other);
    SeparatorsOfParts(name, "-" + other);
    SeparatorsOfParts("_", other);
    SeparatorsOfParts("-", other);
    OneSeparator();
    assert name + ("" + other) == name + other;
    assert name + "_" + other == name + ("_" + other) && name + "-" + other == name + ("-" + other);
  }

  lemma OneSeparator()
    ensures WithoutSeparators("_") == WithoutSeparators("-") == ""
  {}

  lemma {:induction false} PlainName(name: string)
    requires forall i :: 0 <= i < |name| ==> name[i] != '_' && name[i] != '-'
    ensures WithoutSeparators(name) == name
  {
    if name != "" {
      PlainName(name[1..]);
    }
  }

  lemma {:induction false} SeparatorsOfParts(a: string, b: string)
    ensures WithoutSeparators(a + b) == WithoutSeparators(a) + WithoutSeparators(b)
  {
    if a == "" {
      assert a + b == b;
    } else {
      assert (a + b)[1..] == a[1..] + b;
      SeparatorsOfParts(a[1..], b);
    }
  }
}
