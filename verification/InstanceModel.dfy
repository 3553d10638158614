/**
 An Instance: the rows its descriptor describes, the apply trail, and what one apply does,
 written as functions on values. `InstanceStore` is the object that does it step by step.
 */
module InstanceModel {
  import opened Texts
  import opened JsonValues
  import opened Planner
  import opened PlanLog
  import opened PlanGuarantees

  // ---- Descriptors ----

  /** A section item: its ref and the rest of its mapping. */
  datatype Item = Item(ref: string, fields: map<string, Json>)

  datatype Descriptor = Descriptor(
    instanceRef: string, displayName: Json,
    channels: seq<Item>, rules: seq<Item>, personas: seq<Item>,
    rest: Json)

  /** The sections this model writes. */
  datatype Section = Channels | Rules | Personas
  {
    function Name(): string {
      match this case Channels => "channels" case Rules => "rule_configs" case Personas => "rbac_personas"
    }
  }

  function Declared(d: Descriptor, s: Section): seq<Item> {
    match s case Channels => d.channels case Rules => d.rules case Personas => d.personas
  }

  predicate UniqueRefs(items: seq<Item>) {
    forall i, j :: 0 <= i < j < |items| ==> items[i].ref != items[j].ref
  }

  /** `items[ref] = item` on an insertion-ordered dictionary. */
  function PutItem(items: seq<Item>, x: Item): seq<Item> {
    if items == [] then [x]
    else if items[0].ref == x.ref then [x] + items[1..]
    else [items[0]] + PutItem(items[1..], x)
  }

  lemma {:induction false} PutItemMembers(items: seq<Item>, x: Item)
    requires UniqueRefs(items)
    ensures UniqueRefs(PutItem(items, x))
    ensures forall y :: y in PutItem(items, x) <==> y == x || (y in items && y.ref != x.ref)
    decreases |items|
  {
    if items != [] {
      var rest := items[1..];
      assert items == [items[0]] + rest;
      assert forall y :: y in rest ==> y.ref != items[0].ref;
      if items[0].ref != x.ref {
        PutItemMembers(rest, x);
        var r := PutItem(rest, x);
        assert forall i :: 0 <= i < |r| ==> r[i] in r;
        assert forall i :: 0 <= i < |r| ==> r[i].ref != items[0].ref;
      }
    }
  }

  /** A section as `{ref: item}`: a repeated ref keeps its first place and its last value. */
  function Keyed(items: seq<Item>): seq<Item> {
    if items == [] then [] else PutItem(Keyed(items[..|items| - 1]), items[|items| - 1])
  }

  /** The same section as a lookup table of item bodies. */
  function Table(items: seq<Item>): map<string, Json> {
    if items == [] then map[]
    else Table(items[..|items| - 1])[items[|items| - 1].ref := Obj(items[|items| - 1].fields)]
  }

  function At(table: map<string, Json>, ref: string): Node {
    if ref in table then Some(table[ref]) else None
  }

  /** Keying a section and looking its items up in the table agree. */
  lemma {:induction false} KeyedIsTable(items: seq<Item>)
    ensures UniqueRefs(Keyed(items))
    ensures forall x :: x in Keyed(items) <==> At(Table(items), x.ref) == Some(Obj(x.fields))
    ensures forall x :: x in Keyed(items) ==> x in items
    decreases |items|
  {
    if items != [] {
      var init, last := items[..|items| - 1], items[|items| - 1];
      KeyedIsTable(init);
      PutItemMembers(Keyed(init), last);
      assert items == init + [last];
      forall x ensures x in Keyed(items) <==> At(Table(items), x.ref) == Some(Obj(x.fields)) {
        assert x == Item(x.ref, x.fields);
      }
    }
  }

  // ---- Rows ----

  datatype ChannelRow = ChannelRow(name: Json, commercePolicy: Json, displayOrder: Json, overrides: Json, active: Json)

  datatype RuleRow = RuleRow(path: Json, title: Json, enabled: Json, params: Json, channels: set<string>,
                             priority: Json)

  /** One line of the apply trail. */
  datatype Record = Record(descriptor: Descriptor, changes: seq<Change>, policy: Policy, actor: string)

  datatype Database = Database(
    shops: seq<Json>,
    channels: map<string, ChannelRow>,
    rules: map<string, RuleRow>,
    groups: map<string, set<string>>,
    permissions: set<string>,
    trail: seq<Record>)

  // ---- Projection ----

  const EMPTY := Obj(map[])

  predicate Falsy(j: Json) {
    match j
    case Null => true
    case Bool(b) => !b
    case Int(i) => i == 0
    case Float(r) => r == 0.0
    case Str(s) => s == ""
    case Arr(items) => items == []
    case Obj(fields) => fields == map[]
  }

  /** `value or {}` */
  function OrEmpty(j: Json): Json {
    if Falsy(j) then EMPTY else j
  }

  function Strings(xs: seq<string>): Json {
    Arr(seq(|xs|, i requires 0 <= i < |xs| => Str(xs[i])))
  }

  function ConfigItem(enabled: Json, config: map<string, Json>): Json {
    Obj(map["enabled" := enabled, "config" := Obj(config)])
  }

  function ChannelBody(row: ChannelRow): Json {
    ConfigItem(row.active,
      map["name" := row.name, "commerce_policy" := row.commercePolicy,
          "display_order" := row.displayOrder, "overrides" := OrEmpty(row.overrides)])
  }

  function RuleBody(row: RuleRow): Json {
    ConfigItem(row.enabled,
      map["rule_path" := row.path, "label" := row.title, "params" := OrEmpty(row.params),
          "channels" := Strings(Sorted(row.channels)), "priority" := row.priority])
  }

  function PersonaBody(name: string, permissions: set<string>): Json {
    Obj(map["name" := Str(name), "permissions" := Strings(Sorted(permissions))])
  }

  function ProjectChannels(channels: map<string, ChannelRow>): map<string, Json> {
    map ref | ref in channels :: ChannelBody(channels[ref])
  }

  function ProjectRules(rules: map<string, RuleRow>): map<string, Json> {
    map ref | ref in rules :: RuleBody(rules[ref])
  }

  /** Group names must give distinct persona refs. */
  predicate SlugsUnique(groups: map<string, set<string>>, slug: string -> string) {
    forall a, b :: a in groups && b in groups && slug(a) == slug(b) ==> a == b
  }

  /** The group a persona ref names, if any. */
  function GroupOf(groups: map<string, set<string>>, slug: string -> string, ref: string)
    : Option<(string, set<string>)> {
    var names := set n | n in groups && slug(n) == ref;
    if names == {} then None else
      var name := Least(names);
      Some((name, groups[name]))
  }

  function ProjectPersonas(groups: map<string, set<string>>, slug: string -> string): map<string, Json> {
    var refs := set n | n in groups :: slug(n);
    map ref | ref in refs && GroupOf(groups, slug, ref).Some? ::
      var g := GroupOf(groups, slug, ref).value; PersonaBody(g.0, g.1)
  }

  /** The database in the descriptor's shape, one section of it. */
  function Projected(db: Database, s: Section, slug: string -> string): map<string, Json>
  {
    match s
    case Channels => ProjectChannels(db.channels)
    case Rules => ProjectRules(db.rules)
    case Personas => ProjectPersonas(db.groups, slug)
  }

  // ---- Planning ----

  /** The latest trail record of an Instance. */
  function LastApplied(trail: seq<Record>, instanceRef: string): Option<Descriptor> {
    if trail == [] then None
    else if trail[|trail| - 1].descriptor.instanceRef == instanceRef then Some(trail[|trail| - 1].descriptor)
    else LastApplied(trail[..|trail| - 1], instanceRef)
  }

  function BaseTable(last: Option<Descriptor>, s: Section): map<string, Json> {
    match last case Some(d) => Table(Declared(d, s)) case None => map[]
  }

  function BaseName(last: Option<Descriptor>): Node {
    match last case Some(d) => Some(d.displayName) case None => None
  }

  function Parts(section: string, ref: string): seq<string> {
    ["bootstrap", section, ref]
  }

  /** What one declared item becomes, given the item the database has (if any). */
  function PlannedItem(policy: Policy, section: string, x: Item, v: Node, b: Node): Item {
    if v.None? || !v.value.Obj? then x else
      MergedGet(policy, section, Obj(x.fields), v.value, b, [], "");
      Item(x.ref, MergeNode(policy, section, Obj(x.fields), v.value, b, []).fields)
  }

  function ItemLog(policy: Policy, section: string, x: Item, v: Node, b: Node): seq<Change> {
    if v.None? || !v.value.Obj? then [Change(Create, Parts(section, x.ref), Some(Obj(x.fields)), None)]
    else LogNode(policy, section, Obj(x.fields), v.value, b, Parts(section, x.ref), [])
  }

  function PlannedItems(policy: Policy, section: string, items: seq<Item>,
                        database: map<string, Json>, base: map<string, Json>): (r: seq<Item>)
    ensures |r| == |items| && forall i :: 0 <= i < |r| ==>
              r[i] == PlannedItem(policy, section, items[i], At(database, items[i].ref), At(base, items[i].ref))
  {
    if items == [] then [] else
      [PlannedItem(policy, section, items[0], At(database, items[0].ref), At(base, items[0].ref))]
      + PlannedItems(policy, section, items[1..], database, base)
  }

  function SectionLog(policy: Policy, section: string, items: seq<Item>,
                      database: map<string, Json>, base: map<string, Json>): seq<Change> {
    if items == [] then [] else
      ItemLog(policy, section, items[0], At(database, items[0].ref), At(base, items[0].ref))
      + SectionLog(policy, section, items[1..], database, base)
  }

  datatype Plan = Plan(displayName: Json, channels: seq<Item>, rules: seq<Item>, personas: seq<Item>,
                       changes: seq<Change>)

  function PlannedName(db: Database, d: Descriptor, policy: Policy): Json {
    if db.shops == [] then d.displayName
    else MergeNode(policy, "instance", d.displayName, db.shops[0],
                   BaseName(LastApplied(db.trail, d.instanceRef)), ["display_name"])
  }

  function NameLog(db: Database, d: Descriptor, policy: Policy): seq<Change> {
    if db.shops == [] then [Change(Create, ["instance", "shop"], Some(d.displayName), None)]
    else LogNode(policy, "instance", d.displayName, db.shops[0],
                 BaseName(LastApplied(db.trail, d.instanceRef)), ["instance", "display_name"], ["display_name"])
  }

  function SectionTarget(db: Database, d: Descriptor, policy: Policy, slug: string -> string, s: Section): seq<Item>
  {
    PlannedItems(policy, s.Name(), Keyed(Declared(d, s)), Projected(db, s, slug),
                 BaseTable(LastApplied(db.trail, d.instanceRef), s))
  }

  function SectionChanges(db: Database, d: Descriptor, policy: Policy, slug: string -> string, s: Section): seq<Change>
  {
    SectionLog(policy, s.Name(), Keyed(Declared(d, s)), Projected(db, s, slug),
               BaseTable(LastApplied(db.trail, d.instanceRef), s))
  }

  /** The plan of an apply: effective target and change list. */
  function PlanOf(db: Database, d: Descriptor, policy: Policy, slug: string -> string): Plan
  {
    Plan(PlannedName(db, d, policy),
         SectionTarget(db, d, policy, slug, Channels),
         SectionTarget(db, d, policy, slug, Rules),
         SectionTarget(db, d, policy, slug, Personas),
         NameLog(db, d, policy) + SectionChanges(db, d, policy, slug, Channels)
         + SectionChanges(db, d, policy, slug, Rules) + SectionChanges(db, d, policy, slug, Personas))
  }

  // ---- Writing ----

  datatype Error =
    | NoActor
    | DeclaresOperationalState
    | ShopNotSingle
    | DuplicatePersonaRefs
    | DriftConflict(conflicts: seq<Change>)
    | BadItem(ref: string)
    | UnknownChannel(ref: string)
    | UnknownPermission(ref: string)

  function GetOr(m: map<string, Json>, k: string, default: Json): Json {
    if k in m then m[k] else default
  }

  /** A column is written only when the new value differs, in Python's sense. */
  function Column(stored: Json, new_: Json): Json {
    if PyEq(stored, new_) then stored else new_
  }

  const TRUE := Bool(true)

  function ChannelFrom(x: Item): Option<ChannelRow> {
    var config := GetOr(x.fields, "config", EMPTY);
    var active := GetOr(x.fields, "enabled", TRUE);
    if !config.Obj? || active.Null? then None else
      var c := config.fields;
      Some(ChannelRow(GetOr(c, "name", Str("")), GetOr(c, "commerce_policy", Str("order")),
                      GetOr(c, "display_order", Int(0)), GetOr(c, "overrides", EMPTY), active))
  }

  function UpdateChannel(old_: ChannelRow, new_: ChannelRow): ChannelRow {
    ChannelRow(Column(old_.name, new_.name), Column(old_.commercePolicy, new_.commercePolicy),
               Column(old_.displayOrder, new_.displayOrder), Column(old_.overrides, new_.overrides),
               Column(old_.active, new_.active))
  }

  function WriteChannel(channels: map<string, ChannelRow>, x: Item): Result<map<string, ChannelRow>, Error> {
    var row := ChannelFrom(x);
    if row.None? then Err(BadItem(x.ref))
    else if x.ref in channels then Ok(channels[x.ref := UpdateChannel(channels[x.ref], row.value)])
    else Ok(channels[x.ref := row.value])
  }

  function WriteChannels(channels: map<string, ChannelRow>, items: seq<Item>): Result<map<string, ChannelRow>, Error>
    decreases |items|
  {
    if items == [] then Ok(channels) else
      var r := WriteChannel(channels, items[0]);
      if r.Err? then r else WriteChannels(r.value, items[1..])
  }

  const RULE_FIELDS := {"rule_path", "label", "params", "channels", "priority"}

  predicate IsStrings(j: Json) {
    j.Arr? && forall i :: 0 <= i < |j.items| ==> j.items[i].Str?
  }

  function StringsOf(j: Json): seq<string>
    requires IsStrings(j)
  {
    seq(|j.items|, i requires 0 <= i < |j.items| => j.items[i].s)
  }

  /** The rule row an item asks for, when its shape and its channels are right. */
  function RuleFrom(known: set<string>, x: Item): Result<RuleRow, Error> {
    var config := GetOr(x.fields, "config", EMPTY);
    var enabled := GetOr(x.fields, "enabled", TRUE);
    if !config.Obj? || config.fields.Keys != RULE_FIELDS || enabled.Null? then Err(BadItem(x.ref)) else
      var c := config.fields;
      if !IsStrings(c["channels"]) then Err(BadItem(x.ref)) else
        var refs := StringsOf(c["channels"]);
        if !NoRepeats(refs) || !(Elements(refs) <= known) then Err(UnknownChannel(x.ref))
        else Ok(RuleRow(c["rule_path"], c["label"], enabled, c["params"], Elements(refs), c["priority"]))
  }

  function UpdateRule(old_: RuleRow, new_: RuleRow): RuleRow {
    RuleRow(Column(old_.path, new_.path), Column(old_.title, new_.title), Column(old_.enabled, new_.enabled),
            Column(old_.params, new_.params), new_.channels, Column(old_.priority, new_.priority))
  }

  function WriteRule(known: set<string>, rules: map<string, RuleRow>, x: Item): Result<map<string, RuleRow>, Error> {
    var row := RuleFrom(known, x);
    if row.Err? then Err(row.error)
    else if x.ref in rules then Ok(rules[x.ref := UpdateRule(rules[x.ref], row.value)])
    else Ok(rules[x.ref := row.value])
  }

  function WriteRules(known: set<string>, rules: map<string, RuleRow>, items: seq<Item>)
    : Result<map<string, RuleRow>, Error>
    decreases |items|
  {
    if items == [] then Ok(rules) else
      var r := WriteRule(known, rules, items[0]);
      if r.Err? then r else WriteRules(known, r.value, items[1..])
  }

  function WritePersona(known: set<string>, groups: map<string, set<string>>, x: Item, slug: string -> string)
    : Result<map<string, set<string>>, Error>
  {
    var name, permissions := GetOr(x.fields, "name", Null), GetOr(x.fields, "permissions", Null);
    if !name.Str? || slug(name.s) != x.ref || !IsStrings(permissions) then Err(BadItem(x.ref))
    else if !(Elements(StringsOf(permissions)) <= known) then Err(UnknownPermission(x.ref))
    else Ok(groups[name.s := Elements(StringsOf(permissions))])
  }

  function WritePersonas(known: set<string>, groups: map<string, set<string>>, items: seq<Item>, slug: string -> string)
    : Result<map<string, set<string>>, Error>
    decreases |items|
  {
    if items == [] then Ok(groups) else
      var r := WritePersona(known, groups, items[0], slug);
      if r.Err? then r else WritePersonas(known, r.value, items[1..], slug)
  }

  function WriteShop(shops: seq<Json>, name: Json): seq<Json>
    requires |shops| <= 1
  {
    if shops == [] then [name] else [Column(shops[0], name)]
  }

  /** Every write of an apply, in order; the first failure stops it. */
  function WritePlan(db: Database, plan: Plan, slug: string -> string): Result<Database, Error>
    requires |db.shops| <= 1
  {
    var channels := WriteChannels(db.channels, plan.channels);
    if channels.Err? then Err(channels.error) else
      var rules := WriteRules(channels.value.Keys, db.rules, plan.rules);
      if rules.Err? then Err(rules.error) else
        var groups := WritePersonas(db.permissions, db.groups, plan.personas, slug);
        if groups.Err? then Err(groups.error) else
          Ok(db.(shops := WriteShop(db.shops, plan.displayName),
                 channels := channels.value, rules := rules.value, groups := groups.value))
  }

  // ---- Apply ----

  predicate Blank(s: string) {
    forall c :: c in s ==> c in {' ', '\t', '\n', '\r', '\U{b}', '\U{c}', '\U{1c}', '\U{1d}', '\U{1e}', '\U{1f}'}
  }

  /** Some channel declares operational state other than `enabled`. */
  predicate DeclaresState(d: Descriptor) {
    exists i, p ::
      && 0 <= i < |d.channels| && p in CHANNEL_STATE && p != ["enabled"]
      && WalkOrNull(Some(Obj(d.channels[i].fields)), p) != Null
  }

  predicate Wrote(changes: seq<Change>) {
    exists i :: 0 <= i < |changes| && changes[i].action in WRITING_ACTIONS
  }

  function Conflicts(changes: seq<Change>): seq<Change> {
    if changes == [] then [] else
      (if changes[0].action == Conflict then [changes[0]] else []) + Conflicts(changes[1..])
  }

  /** The reported conflicts are the log's, and there are none exactly when the log has none. */
  lemma {:induction false} ConflictsAreLogged(changes: seq<Change>)
    ensures forall c :: c in Conflicts(changes) <==> c in changes && c.action == Conflict
    ensures Conflicts(changes) == [] <==> ConflictFree(changes)
    decreases |changes|
  {
    if changes != [] {
      ConflictsAreLogged(changes[1..]);
      assert changes == [changes[0]] + changes[1..];
      assert Conflicts(changes) != [] ==> Conflicts(changes)[0] in Conflicts(changes);
    }
  }

  /** Order and multiplicity: wherever a log is cut, the conflicts of its parts come one after the other. */
  lemma {:induction false} ConflictsInOrder(a: seq<Change>, b: seq<Change>)
    ensures Conflicts(a + b) == Conflicts(a) + Conflicts(b)
    decreases |a|
  {
    if a == [] {
      assert a + b == b;
    } else {
      ConflictsInOrder(a[1..], b);
      assert (a + b)[0] == a[0] && (a + b)[1..] == a[1..] + b;
      AppendAssociative(if a[0].action == Conflict then [a[0]] else [], Conflicts(a[1..]), Conflicts(b));
    }
  }

  function Refusal(db: Database, d: Descriptor, actor: string, slug: string -> string): Option<Error> {
    if Blank(actor) then Some(NoActor)
    else if DeclaresState(d) then Some(DeclaresOperationalState)
    else if |db.shops| > 1 then Some(ShopNotSingle)
    else if !SlugsUnique(db.groups, slug) then Some(DuplicatePersonaRefs)
    else None
  }

  function Recorded(db: Database, d: Descriptor, changes: seq<Change>, policy: Policy, actor: string): seq<Record> {
    if Wrote(changes) || LastApplied(db.trail, d.instanceRef) != Some(d)
    then db.trail + [Record(d, changes, policy, actor)]
    else db.trail
  }

  /** What an accepted call does with its plan. */
  function Carry(db: Database, d: Descriptor, plan: Plan, actor: string, policy: Policy, dryRun: bool,
                 slug: string -> string)
    : (Database, Result<seq<Change>, Error>)
    requires |db.shops| <= 1
  {
    if dryRun then (db, Ok(plan.changes))
    else if Conflicts(plan.changes) != [] then (db, Err(DriftConflict(Conflicts(plan.changes))))
    else
      var written := WritePlan(db, plan, slug);
      if written.Err? then (db, Err(written.error))
      else (written.value.(trail := Recorded(db, d, plan.changes, policy, actor)), Ok(plan.changes))
  }

  /** One call of the apply: the database after it, and the change list or the refusal. */
  function Apply(db: Database, d: Descriptor, actor: string, policy: Policy, dryRun: bool, slug: string -> string)
    : (Database, Result<seq<Change>, Error>)
  {
    var refusal := Refusal(db, d, actor, slug);
    if refusal.Some? then (db, Err(refusal.value))
    else Carry(db, d, PlanOf(db, d, policy, slug), actor, policy, dryRun, slug)
  }
}
