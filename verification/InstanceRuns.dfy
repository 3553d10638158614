/** Operator edits and applies, interleaved at will. */
module InstanceRuns {
  import opened Texts
  import opened JsonValues
  import opened Planner
  import opened PlanLog
  import opened PlanGuarantees
  import opened InstanceModel
  import opened InstanceItems
  import opened InstanceApply
  import opened InstanceConvergence

  // ---- One apply, cell by cell ----

  function LastBase(db: Database, d: Descriptor, s: Section): map<string, Json> {
    BaseTable(LastApplied(db.trail, d.instanceRef), s)
  }

  lemma FailedOrDry(db: Database, d: Descriptor, actor: string, policy: Policy, dryRun: bool, slug: string -> string)
    requires dryRun || Apply(db, d, actor, policy, dryRun, slug).1.Err?
    ensures Apply(db, d, actor, policy, dryRun, slug).0 == db
  {
  }

  /** A stored channel is either not declared and untouched, or its planned item written over its row. */
  lemma ChannelStep(db: Database, d: Descriptor, policy: Policy, slug: string -> string,
                    after: map<string, ChannelRow>, ref: string)
    requires WriteChannels(db.channels, SectionTarget(db, d, policy, slug, Channels)) == Ok(after)
    ensures var own := At(Table(d.channels), ref);
            if own.None? then Row(after, ref) == Row(db.channels, ref)
            else
              && own.value.Obj?
              && var x := Item(ref, own.value.fields);
                 var t := PlannedItem(policy, "channels", x, ChannelNode(Row(db.channels, ref)),
                                      At(LastBase(db, d, Channels), ref));
                 && x in d.channels && ChannelFrom(t).Some?
                 && Row(after, ref) == Some(ChannelAfter(Row(db.channels, ref), t))
  {
    var items, table, base := Keyed(d.channels), ProjectChannels(db.channels), LastBase(db, d, Channels);
    var target := SectionTarget(db, d, policy, slug, Channels);
    KeyedIsTable(d.channels);
    TableOfObjects(d.channels, ref);
    TargetUnique(db, d, policy, slug, Channels);
    assert target == PlannedItems(policy, "channels", items, table, base);
    var own := At(Table(d.channels), ref);
    assert At(table, ref) == ChannelNode(Row(db.channels, ref));
    if own.None? {
      forall t | t in target ensures t.ref != ref {
        var x := PlannedFrom(policy, "channels", items, table, base, t);
        assert At(Table(d.channels), x.ref).Some?;
      }
      ChannelsElsewhere(db.channels, target, ref);
    } else {
      var x := Item(ref, own.value.fields);
      assert x in items;
      PlannedOf(policy, "channels", items, table, base, x);
      ChannelsWritten(db.channels, target, PlannedItem(policy, "channels", x, At(table, ref), At(base, ref)));
    }
  }

  lemma {:induction false} TableOfObjects(items: seq<Item>, ref: string)
    ensures At(Table(items), ref).Some? ==> At(Table(items), ref).value.Obj?
    decreases |items|
  {
    if items != [] { TableOfObjects(items[..|items| - 1], ref); }
  }

  /** Refuse and keep change a channel's cell only where the last applied descriptor declared what it held. */
  lemma ApplyKeepsChannelEdits(db: Database, d: Descriptor, actor: string, policy: Policy, dryRun: bool,
                               slug: string -> string,
                               ref: string, path: seq<string>)
    requires policy != Overwrite && ref in db.channels
    ensures var after := Apply(db, d, actor, policy, dryRun, slug).0;
            && ref in after.channels
            && Accounted(Lookup(Some(ChannelBody(db.channels[ref])), path),
                         Lookup(Some(ChannelBody(after.channels[ref])), path),
                         Lookup(At(LastBase(db, d, Channels), ref), path))
  {
    if dryRun || Apply(db, d, actor, policy, dryRun, slug).1.Err? {
      FailedOrDry(db, d, actor, policy, dryRun, slug);
    } else {
      var after := Apply(db, d, actor, policy, dryRun, slug).0;
      ApplyIsApplied(db, d, actor, policy, slug);
      ChannelStep(db, d, policy, slug, after.channels, ref);
      var own := At(Table(d.channels), ref);
      if own.Some? {
        ChannelNoLoss(policy, Item(ref, own.value.fields), db.channels[ref], At(LastBase(db, d, Channels), ref), path);
      }
    }
  }

  lemma RuleStep(db: Database, d: Descriptor, policy: Policy, slug: string -> string, known: set<string>,
                 after: map<string, RuleRow>, ref: string)
    requires WriteRules(known, db.rules, SectionTarget(db, d, policy, slug, Rules)) == Ok(after)
    ensures var own := At(Table(d.rules), ref);
            if own.None? then Row(after, ref) == Row(db.rules, ref)
            else
              && own.value.Obj?
              && var t := PlannedItem(policy, "rule_configs", Item(ref, own.value.fields), RuleNode(Row(db.rules, ref)),
                                      At(LastBase(db, d, Rules), ref));
                 RuleFrom(known, t).Ok? && Row(after, ref) == Some(RuleAfter(known, Row(db.rules, ref), t))
  {
    var items, table, base := Keyed(d.rules), ProjectRules(db.rules), LastBase(db, d, Rules);
    var target := SectionTarget(db, d, policy, slug, Rules);
    KeyedIsTable(d.rules);
    TableOfObjects(d.rules, ref);
    TargetUnique(db, d, policy, slug, Rules);
    assert target == PlannedItems(policy, "rule_configs", items, table, base);
    var own := At(Table(d.rules), ref);
    assert At(table, ref) == RuleNode(Row(db.rules, ref));
    if own.None? {
      forall t | t in target ensures t.ref != ref {
        var x := PlannedFrom(policy, "rule_configs", items, table, base, t);
        assert At(Table(d.rules), x.ref).Some?;
      }
      RulesElsewhere(known, db.rules, target, ref);
    } else {
      var x := Item(ref, own.value.fields);
      assert x in items;
      PlannedOf(policy, "rule_configs", items, table, base, x);
      RulesWritten(known, db.rules, target, PlannedItem(policy, "rule_configs", x, At(table, ref), At(base, ref)));
    }
  }

  lemma ApplyKeepsRuleEdits(db: Database, d: Descriptor, actor: string, policy: Policy, dryRun: bool,
                            slug: string -> string,
                            ref: string, path: seq<string>)
    requires policy != Overwrite && ref in db.rules
    ensures var after := Apply(db, d, actor, policy, dryRun, slug).0;
            && ref in after.rules
            && Accounted(Lookup(Some(RuleBody(db.rules[ref])), path),
                         Lookup(Some(RuleBody(after.rules[ref])), path),
                         Lookup(At(LastBase(db, d, Rules), ref), path))
  {
    if dryRun || Apply(db, d, actor, policy, dryRun, slug).1.Err? {
      FailedOrDry(db, d, actor, policy, dryRun, slug);
    } else {
      var after := Apply(db, d, actor, policy, dryRun, slug).0;
      ApplyIsApplied(db, d, actor, policy, slug);
      RuleStep(db, d, policy, slug, after.channels.Keys, after.rules, ref);
      var own := At(Table(d.rules), ref);
      if own.Some? {
        RuleNoLoss(policy, after.channels.Keys, Item(ref, own.value.fields), db.rules[ref],
                   At(LastBase(db, d, Rules), ref), path);
      }
    }
  }

  /** A group keeps its permissions, or the last applied persona declared exactly those. */
  lemma ApplyKeepsGroupEdits(db: Database, d: Descriptor, actor: string, policy: Policy, dryRun: bool,
                             slug: string -> string,
                             name: string)
    requires policy != Overwrite && name in db.groups
    ensures var after := Apply(db, d, actor, policy, dryRun, slug).0;
            && name in after.groups
            && (|| after.groups[name] == db.groups[name]
                || SameNode(Get(At(LastBase(db, d, Personas), slug(name)), "permissions"),
                            Some(Strings(Sorted(db.groups[name])))))
  {
    if dryRun || Apply(db, d, actor, policy, dryRun, slug).1.Err? {
      FailedOrDry(db, d, actor, policy, dryRun, slug);
    } else {
      var after := Apply(db, d, actor, policy, dryRun, slug).0;
      ApplyIsApplied(db, d, actor, policy, slug);
      KeyedIsTable(d.personas);
      assert SectionTarget(db, d, policy, slug, Personas) ==
             PlannedItems(policy, "rbac_personas", Keyed(d.personas), ProjectPersonas(db.groups, slug),
                          LastBase(db, d, Personas));
      GroupStep(policy, db.permissions, db.groups, Keyed(d.personas), LastBase(db, d, Personas), slug, name);
    }
  }

  lemma GroupStep(policy: Policy, known: set<string>, groups: map<string, set<string>>, items: seq<Item>,
                  base: map<string, Json>, slug: string -> string, name: string)
    requires policy != Overwrite && name in groups && SlugsUnique(groups, slug) && UniqueRefs(items)
    requires WritePersonas(known, groups, PlannedItems(policy, "rbac_personas", items, ProjectPersonas(groups, slug),
                                                       base), slug).Ok?
    ensures var after := WritePersonas(known, groups,
                           PlannedItems(policy, "rbac_personas", items, ProjectPersonas(groups, slug), base),
                             slug).value;
            && name in after
            && (|| after[name] == groups[name]
                || SameNode(Get(At(base, slug(name)), "permissions"), Some(Strings(Sorted(groups[name])))))
  {
    var table := ProjectPersonas(groups, slug);
    var target := PlannedItems(policy, "rbac_personas", items, table, base);
    PlannedUnique(policy, "rbac_personas", items, table, base);
    if t :| t in target && PersonaOk(known, t, slug) && t.fields["name"].s == name {
      PersonasWritten(known, groups, target, slug, t);
      GroupKeptOrBase(policy, known, groups, items, base, slug, name, t);
    } else {
      PersonasElsewhere(known, groups, target, slug, name);
    }
  }

  /** A planned persona of this name grants what the group has, or what it has was the base's. */
  lemma GroupKeptOrBase(policy: Policy, known: set<string>, groups: map<string, set<string>>, items: seq<Item>,
                        base: map<string, Json>, slug: string -> string, name: string, t: Item)
    requires policy != Overwrite && name in groups && SlugsUnique(groups, slug)
    requires t in PlannedItems(policy, "rbac_personas", items, ProjectPersonas(groups, slug), base)
    requires PersonaOk(known, t, slug) && t.fields["name"].s == name
    ensures Granted(t) == groups[name]
            || SameNode(Get(At(base, slug(name)), "permissions"), Some(Strings(Sorted(groups[name]))))
  {
    var x := PlannedFrom(policy, "rbac_personas", items, ProjectPersonas(groups, slug), base, t);
    assert x.ref == slug(name);
    StoredPersona(groups, slug, name);
    PersonaKept(policy, x, name, groups[name], At(base, slug(name)), t);
  }

  lemma StoredPersona(groups: map<string, set<string>>, slug: string -> string, name: string)
    requires name in groups && SlugsUnique(groups, slug)
    ensures At(ProjectPersonas(groups, slug), slug(name)) == Some(PersonaBody(name, groups[name]))
  {
    GroupProjected(groups, slug, slug(name));
    GroupUnique(groups, slug, name);
  }

  lemma PersonaKept(policy: Policy, x: Item, name: string, permissions: set<string>, b: Node, t: Item)
    requires policy != Overwrite
             && t == PlannedItem(policy, "rbac_personas", x, Some(PersonaBody(name, permissions)), b)
    requires "permissions" in t.fields && IsStrings(t.fields["permissions"])
    ensures Granted(t) == permissions || SameNode(Get(b, "permissions"), Some(Strings(Sorted(permissions))))
  {
    PersonaNoLoss(policy, x, name, permissions, b);
  }

  /** The display name of the shop stays, or the last applied descriptor declared exactly it. */
  lemma ApplyKeepsShopName(db: Database, d: Descriptor, actor: string, policy: Policy, dryRun: bool,
                           slug: string -> string)
    requires policy != Overwrite && db.shops != []
    ensures var after := Apply(db, d, actor, policy, dryRun, slug).0;
            && after.shops != []
            && Accounted(Some(db.shops[0]), Some(after.shops[0]), BaseName(LastApplied(db.trail, d.instanceRef)))
  {
    if dryRun || Apply(db, d, actor, policy, dryRun, slug).1.Err? {
      FailedOrDry(db, d, actor, policy, dryRun, slug);
    } else {
      var base := BaseName(LastApplied(db.trail, d.instanceRef));
      ApplyIsApplied(db, d, actor, policy, slug);
      NoLostEdit(policy, "instance", d.displayName, db.shops[0], base, ["display_name"], []);
    }
  }

  // ---- Items that were not there ----

  /** The refs a section has in the database. */
  function StoredRefs(db: Database, s: Section, slug: string -> string): set<string> {
    match s
    case Channels => db.channels.Keys
    case Rules => db.rules.Keys
    case Personas => set name | name in db.groups :: slug(name)
  }

  /** In every section an apply creates exactly the declared items the database does not have. */
  lemma ItemsCreated(db: Database, d: Descriptor, actor: string, policy: Policy, slug: string -> string, s: Section,
                     ref: string)
    requires Apply(db, d, actor, policy, false, slug).1.Ok?
    ensures ref in StoredRefs(Apply(db, d, actor, policy, false, slug).0, s, slug)
       <==> ref in StoredRefs(db, s, slug) || ref in Table(Declared(d, s))
  {
    var after := Apply(db, d, actor, policy, false, slug).0;
    ApplyIsApplied(db, d, actor, policy, slug);
    match s
    case Channels => ChannelStep(db, d, policy, slug, after.channels, ref);
    case Rules => RuleStep(db, d, policy, slug, after.channels.Keys, after.rules, ref);
    case Personas => PersonasCreated(db, d, policy, slug, after, ref);
  }

  lemma PersonasCreated(db: Database, d: Descriptor, policy: Policy, slug: string -> string, after: Database,
                        ref: string)
    requires WritePersonas(db.permissions, db.groups, SectionTarget(db, d, policy, slug, Personas), slug)
             == Ok(after.groups)
    ensures ref in StoredRefs(after, Personas, slug) <==>
            ref in StoredRefs(db, Personas, slug) || ref in Table(d.personas)
  {
    var target := SectionTarget(db, d, policy, slug, Personas);
    TargetUnique(db, d, policy, slug, Personas);
    TargetRefs(db, d, policy, slug, ref);
    if ref in StoredRefs(after, Personas, slug) {
      var name :| name in after.groups && slug(name) == ref;
      var i := NewGroup(db.permissions, db.groups, target, slug, name);
      if i.Some? { assert target[i.value] in target; }
    }
    if ref in StoredRefs(db, Personas, slug) {
      var name :| name in db.groups && slug(name) == ref;
      GroupKept(db.permissions, db.groups, target, slug, name);
    }
    if x :| x in target && x.ref == ref {
      PersonasWritten(db.permissions, db.groups, target, slug, x);
    }
  }

  /** The target has a persona for exactly the declared refs. */
  lemma TargetRefs(db: Database, d: Descriptor, policy: Policy, slug: string -> string, ref: string)
    ensures ref in Table(d.personas) <==> exists t :: t in SectionTarget(db, d, policy, slug, Personas) && t.ref == ref
  {
    var items, table, base := Keyed(d.personas), ProjectPersonas(db.groups, slug), LastBase(db, d, Personas);
    assert SectionTarget(db, d, policy, slug, Personas) == PlannedItems(policy, "rbac_personas", items, table, base);
    KeyedIsTable(d.personas);
    TableOfObjects(d.personas, ref);
    if ref in Table(d.personas) {
      var x := Item(ref, Table(d.personas)[ref].fields);
      assert x in items;
      PlannedOf(policy, "rbac_personas", items, table, base, x);
    }
    if t :| t in SectionTarget(db, d, policy, slug, Personas) && t.ref == ref {
      var x := PlannedFrom(policy, "rbac_personas", items, table, base, t);
      assert At(Table(d.personas), x.ref).Some?;
    }
  }

  /** An item is added only where the last applied descriptor had none either. */
  ghost predicate AddsOnlyNew(before: Database, d: Descriptor, after: Database, s: Section, slug: string -> string) {
    forall ref :: ref in StoredRefs(after, s, slug) && ref !in StoredRefs(before, s, slug) ==>
        ref !in LastBase(before, d, s)
  }

  /**
   That holds, in every section, exactly when no declared item that was applied before is missing from the
   database.
   */
  lemma AddsOnlyNewExactly(db: Database, d: Descriptor, actor: string, policy: Policy, slug: string -> string,
                           s: Section)
    requires Apply(db, d, actor, policy, false, slug).1.Ok?
    ensures AddsOnlyNew(db, d, Apply(db, d, actor, policy, false, slug).0, s, slug)
       <==> forall ref :: ref in Table(Declared(d, s)) && ref in LastBase(db, d, s) ==> ref in StoredRefs(db, s, slug)
  {
    var after := Apply(db, d, actor, policy, false, slug).0;
    forall ref ensures ref in StoredRefs(after, s, slug) <==>
      ref in StoredRefs(db, s, slug) || ref in Table(Declared(d, s)) {
      ItemsCreated(db, d, actor, policy, slug, s, ref);
    }
  }

  /** A house with one channel, and its database before that channel exists. */
  function LoneChannel(): Descriptor {
    Descriptor("i", Str("Shop"), [Item("c", map[])], [], [], Null)
  }

  function NoChannel(trail: seq<Record>): Database {
    Database([Str("Shop")], map[], map[], map[], {}, trail)
  }

  function LoneCall(policy: Policy): Event {
    Call(LoneChannel(), "a", policy, false)
  }

  /**
   An apply creates the channel, the operator deletes it, and the next apply creates it again, under every
   policy and without a conflict.
   */
  lemma DeletedChannelComesBack(policy: Policy, slug: string -> string)
    ensures var call, delete := LoneCall(policy), Edit(NoChannel([]));
            var one, two := Run(NoChannel([]), [call], slug), Run(NoChannel([]), [call, delete], slug);
            var three := Run(NoChannel([]), [call, delete, call], slug);
            && "c" in one.channels && two == one.(channels := map[]) && "c" in three.channels
            && !AddsOnlyNew(two, LoneChannel(), three, Channels, slug)
  {
    var db, call := NoChannel([]), LoneCall(policy);
    var one := Step(db, call, slug);
    var two := NoChannel(one.trail);
    RunOfOne(db, call, slug);
    RunExtends(db, [call], Edit(db), slug);
    assert [call] + [Edit(db)] == [call, Edit(db)];
    RunExtends(db, [call, Edit(db)], call, slug);
    assert [call, Edit(db)] + [call] == [call, Edit(db), call];
    LoneChannelApplies(db, policy, slug);
    LoneChannelApplies(two, policy, slug);
    ComesBack(two, policy, slug);
  }

  lemma ComesBack(db: Database, policy: Policy, slug: string -> string)
    requires db == NoChannel(db.trail) && LastApplied(db.trail, "i") == Some(LoneChannel())
    requires Apply(db, LoneChannel(), "a", policy, false, slug).1.Ok?
    ensures !AddsOnlyNew(db, LoneChannel(), Step(db, LoneCall(policy), slug), Channels, slug)
  {
    var d := LoneChannel();
    OneChannel(Item("c", map[]));
    assert "c" in Table(d.channels) && "c" in LastBase(db, d, Channels) && "c" !in db.channels;
    AddsOnlyNewExactly(db, d, "a", policy, slug, Channels);
  }

  lemma RunOfOne(db: Database, e: Event, slug: string -> string)
    ensures Run(db, [e], slug) == Step(db, e, slug)
  {
    assert [e][..0] == [];
    assert Run(db, [], slug) == db;
  }

  lemma RunExtends(db: Database, events: seq<Event>, e: Event, slug: string -> string)
    ensures Run(db, events + [e], slug) == Step(Run(db, events, slug), e, slug)
  {
    assert (events + [e])[..|events + [e]| - 1] == events;
  }

  /** Without the channel, an apply succeeds, and all that changes is that the channel is there. */
  ghost predicate Creates(db: Database, after: Database) {
    && "c" in after.channels && LastApplied(after.trail, "i") == Some(LoneChannel())
    && after == NoChannel(after.trail).(channels := after.channels)
  }

  lemma LoneChannelApplies(db: Database, policy: Policy, slug: string -> string)
    requires db == NoChannel(db.trail)
    ensures Apply(db, LoneChannel(), "a", policy, false, slug).1.Ok?
    ensures Creates(db, Step(db, LoneCall(policy), slug))
  {
    var d := LoneChannel();
    LoneChannelTarget(db, policy, slug);
    LoneChannelPlan(db, policy, slug);
    LoneAccepted(db, slug);
    PlannedApplies(db, d, "a", policy, slug);
    ApplyIsApplied(db, d, "a", policy, slug);
    LoneApplied(db, policy, slug, Apply(db, d, "a", policy, false, slug).0);
  }

  lemma LoneApplied(db: Database, policy: Policy, slug: string -> string, after: Database)
    requires db == NoChannel(db.trail) && Applied(db, LoneChannel(), "a", policy, slug, after)
    requires LoneTarget(db, policy, slug)
    ensures Creates(db, after)
  {
    var d := LoneChannel();
    WriteOne(d.channels[0]);
    RecordedLast(db, d, PlanOf(db, d, policy, slug).changes, policy, "a");
    assert WriteRules(after.channels.Keys, db.rules, []) == Ok(db.rules);
    assert WritePersonas(db.permissions, db.groups, [], slug) == Ok(db.groups);
  }

  lemma RecordedLast(db: Database, d: Descriptor, changes: seq<Change>, policy: Policy, actor: string)
    ensures LastApplied(Recorded(db, d, changes, policy, actor), d.instanceRef) == Some(d)
  {
    var r := Record(d, changes, policy, actor);
    assert (db.trail + [r])[|db.trail + [r]| - 1] == r;
  }

  lemma PlannedApplies(db: Database, d: Descriptor, actor: string, policy: Policy, slug: string -> string)
    requires Refusal(db, d, actor, slug).None?
    requires ConflictFree(PlanOf(db, d, policy, slug).changes) && WritePlan(db, PlanOf(db, d, policy, slug), slug).Ok?
    ensures Apply(db, d, actor, policy, false, slug).1.Ok?
  {
    CarrySteps(db, d, PlanOf(db, d, policy, slug), actor, policy, slug);
  }

  /** What the target of that apply is, and that nothing in its log is a conflict. */
  ghost predicate LoneTarget(db: Database, policy: Policy, slug: string -> string) {
    var d := LoneChannel();
    && PlannedName(db, d, policy) == Str("Shop") && SectionTarget(db, d, policy, slug, Channels) == d.channels
    && SectionTarget(db, d, policy, slug, Rules) == [] && SectionTarget(db, d, policy, slug, Personas) == []
    && ConflictFree(NameLog(db, d, policy)) && ConflictFree(SectionChanges(db, d, policy, slug, Channels))
    && ConflictFree(SectionChanges(db, d, policy, slug, Rules))
    && ConflictFree(SectionChanges(db, d, policy, slug, Personas))
  }

  lemma LoneChannelTarget(db: Database, policy: Policy, slug: string -> string)
    requires db == NoChannel(db.trail)
    ensures LoneTarget(db, policy, slug)
  {
    var x := Item("c", map[]);
    OneChannel(x);
    OneItemSection(policy, "channels", x, ProjectChannels(db.channels),
                   BaseTable(LastApplied(db.trail, "i"), Channels));
  }

  lemma LoneChannelPlan(db: Database, policy: Policy, slug: string -> string)
    requires db == NoChannel(db.trail) && LoneTarget(db, policy, slug)
    ensures ConflictFree(PlanOf(db, LoneChannel(), policy, slug).changes)
    ensures WritePlan(db, PlanOf(db, LoneChannel(), policy, slug), slug).Ok?
  {
    PlanLogs(db, LoneChannel(), policy, slug);
    LoneWritten(db, PlanOf(db, LoneChannel(), policy, slug), slug);
  }

  lemma LoneWritten(db: Database, plan: Plan, slug: string -> string)
    requires db == NoChannel(db.trail)
    requires plan.channels == LoneChannel().channels && plan.rules == [] && plan.personas == []
    ensures WritePlan(db, plan, slug).Ok?
  {
    WriteOne(Item("c", map[]));
  }

  lemma LoneAccepted(db: Database, slug: string -> string)
    requires db == NoChannel(db.trail)
    ensures Refusal(db, LoneChannel(), "a", slug).None?
  {
    assert 'a' in "a";
  }

  lemma WriteOne(x: Item)
    requires x.fields == map[]
    ensures ChannelFrom(x).Some? && WriteChannels(map[], [x]) == Ok(map[x.ref := ChannelFrom(x).value])
  {
    assert [x][1..] == [];
  }

  lemma OneChannel(x: Item)
    ensures Table([x]) == map[x.ref := Obj(x.fields)] && Keyed([x]) == [x]
  {
    assert [x][..0] == [];
    assert Keyed([]) == [] && PutItem([], x) == [x];
  }

  lemma OneItemSection(policy: Policy, section: string, x: Item, database: map<string, Json>, base: map<string, Json>)
    ensures SectionLog(policy, section, [x], database, base)
            == ItemLog(policy, section, x, At(database, x.ref), At(base, x.ref))
    ensures PlannedItems(policy, section, [x], database, base)
            == [PlannedItem(policy, section, x, At(database, x.ref), At(base, x.ref))]
  {
    assert [x][1..] == [];
  }

  // ---- A renamed persona ----

  /** A persona without permissions. */
  function Bare(ref: string, name: string): Item {
    Item(ref, map["name" := Str(name), "permissions" := Arr([])])
  }

  /** A house whose one persona has the given name. */
  function OnePersona(ref: string, name: string): Descriptor {
    Descriptor("i", Str("Shop"), [], [], [Bare(ref, name)], Null)
  }

  /** The database that applying the first name left. */
  function FirstNamed(ref: string, name: string): Database {
    Database([Str("Shop")], map[], map[], map[name := {}], {}, [Record(OnePersona(ref, name), [], Refuse, "a")])
  }

  /**
   Two names with the same ref: under every policy the apply that goes from the first to the second
   succeeds, leaves both groups, and no further apply can succeed.
   */
  lemma RenameBreaksNextApply(policy: Policy, slug: string -> string, first: string, second: string)
    requires first != second && slug(first) == slug(second)
    ensures var db, d := FirstNamed(slug(first), first), OnePersona(slug(first), second);
            && Apply(db, d, "a", policy, false, slug).1.Ok?
            && !NoRename(db.groups, SectionTarget(db, d, policy, slug, Personas), slug)
            && Apply(Apply(db, d, "a", policy, false, slug).0, d, "a", policy, false, slug).1.Err?
  {
    var ref := slug(first);
    var db, d := FirstNamed(ref, first), OnePersona(ref, second);
    RenamePlan(policy, slug, first, second);
    RenameTarget(policy, slug, first, second);
    assert 'a' in "a";
    PlannedApplies(db, d, "a", policy, slug);
    var after := Apply(db, d, "a", policy, false, slug).0;
    ApplyIsApplied(db, d, "a", policy, slug);
    RenamesBreakRefs(db, d, policy, slug, after);
    DuplicatesRefuse(after, d, "a", policy, slug);
  }

  lemma RenameTarget(policy: Policy, slug: string -> string, first: string, second: string)
    requires first != second && slug(first) == slug(second)
    ensures var db, d := FirstNamed(slug(first), first), OnePersona(slug(first), second);
            && SlugsUnique(db.groups, slug)
            && SectionTarget(db, d, policy, slug, Personas) == [Bare(slug(first), second)]
            && ConflictFree(SectionChanges(db, d, policy, slug, Personas))
            && !NoRename(db.groups, SectionTarget(db, d, policy, slug, Personas), slug)
  {
    var ref := slug(first);
    var db, d := FirstNamed(ref, first), OnePersona(ref, second);
    var x, base := Bare(ref, second), Bare(ref, first);
    OneChannel(x);
    OneChannel(base);
    assert [] + [db.trail[0]] == db.trail;
    GroupUnique(db.groups, slug, first);
    GroupProjected(db.groups, slug, ref);
    assert Strings(Sorted({})) == Arr([]);
    assert At(ProjectPersonas(db.groups, slug), ref) == Some(Obj(base.fields));
    OneItemSection(policy, "rbac_personas", x, ProjectPersonas(db.groups, slug), Table([base]));
    RenamedFields(policy, ref, first, second);
    assert [Bare(ref, second)][0].ref == slug(first);
  }

  /** The new name is an update, the permissions stay. */
  lemma RenamedFields(policy: Policy, ref: string, first: string, second: string)
    requires first != second
    ensures var x, base := Bare(ref, second), Bare(ref, first);
            && PlannedItem(policy, "rbac_personas", x, Some(Obj(base.fields)), Some(Obj(base.fields))) == x
            && ConflictFree(ItemLog(policy, "rbac_personas", x, Some(Obj(base.fields)), Some(Obj(base.fields))))
  {
    var d, v := Obj(Bare(ref, second).fields), Obj(Bare(ref, first).fields);
    var m := MergeNode(policy, "rbac_personas", d, v, Some(v), []);
    var parts := Parts("rbac_personas", ref);
    MergedGet(policy, "rbac_personas", d, v, Some(v), [], "");
    forall k ensures Get(Some(m), k) == Get(Some(d), k) { RenamedField(policy, ref, first, second, parts, k); }
    ObjByKeys(Some(m), Some(d));
    forall k | k in KeysOf(d, v) ensures ConflictFree(LogField(policy, "rbac_personas", d, v, Some(v), parts, [], k)) {
      RenamedField(policy, ref, first, second, parts, k);
    }
    ConcatConflictFree(Sorted(KeysOf(d, v)), LogTable(policy, "rbac_personas", d, v, Some(v), parts, []));
  }

  lemma RenamedField(policy: Policy, ref: string, first: string, second: string, parts: seq<string>, k: string)
    requires first != second
    ensures var d, v := Obj(Bare(ref, second).fields), Obj(Bare(ref, first).fields);
            && Get(Some(MergeNode(policy, "rbac_personas", d, v, Some(v), [])), k) == Get(Some(d), k)
            && ConflictFree(LogField(policy, "rbac_personas", d, v, Some(v), parts, [], k))
  {
    var d, v := Obj(Bare(ref, second).fields), Obj(Bare(ref, first).fields);
    MergedGet(policy, "rbac_personas", d, v, Some(v), [], k);
    if k == "name" {
      assert d.fields[k] == Str(second) && v.fields[k] == Str(first);
      assert !PyEq(Str(second), Str(first));
    }
  }

  lemma RenamePlan(policy: Policy, slug: string -> string, first: string, second: string)
    requires first != second && slug(first) == slug(second)
    ensures var db, d := FirstNamed(slug(first), first), OnePersona(slug(first), second);
            && ConflictFree(PlanOf(db, d, policy, slug).changes)
            && WritePlan(db, PlanOf(db, d, policy, slug), slug).Ok?
  {
    var db, d := FirstNamed(slug(first), first), OnePersona(slug(first), second);
    RenameTarget(policy, slug, first, second);
    RenameElsewhere(db, d, policy, slug);
    PlanLogs(db, d, policy, slug);
    PlanParts(db, d, policy, slug);
    RenameWrites(db, PlanOf(db, d, policy, slug), slug, Bare(slug(first), second), second);
  }

  /** Nothing else is declared. */
  lemma RenameElsewhere(db: Database, d: Descriptor, policy: Policy, slug: string -> string)
    requires db.shops == [d.displayName] && !d.displayName.Obj? && d.channels == [] && d.rules == []
    ensures ConflictFree(NameLog(db, d, policy))
    ensures SectionTarget(db, d, policy, slug, Channels) == []
            && ConflictFree(SectionChanges(db, d, policy, slug, Channels))
    ensures SectionTarget(db, d, policy, slug, Rules) == [] && ConflictFree(SectionChanges(db, d, policy, slug, Rules))
  {
    assert Keyed([]) == [];
    assert NameLog(db, d, policy) == [];
  }

  lemma RenameWrites(db: Database, plan: Plan, slug: string -> string, x: Item, name: string)
    requires |db.shops| <= 1 && plan.channels == [] && plan.rules == [] && plan.personas == [x]
    requires x == Bare(slug(name), name)
    ensures WritePlan(db, plan, slug).Ok?
  {
    assert [x][1..] == [];
    assert StringsOf(Arr([])) == [];
    var written := WritePersona(db.permissions, db.groups, x, slug);
    assert WritePersonas(db.permissions, db.groups, [x], slug)
           == WritePersonas(db.permissions, written.value, [], slug);
    assert WriteChannels(db.channels, []) == Ok(db.channels)
           && WriteRules(db.channels.Keys, db.rules, []) == Ok(db.rules);
  }

  // ---- A list that is not sorted ----

  /** A house with one persona, whose permissions are declared in the wrong order. */
  function Unsorted(name: string, slug: string -> string): Descriptor {
    var permissions := Arr([Str("b"), Str("a")]);
    Descriptor("i", Str("Shop"), [], [], [Item(slug(name), map["name" := Str(name), "permissions" := permissions])],
               Null)
  }

  const TWO_PERMISSIONS := Database([Str("Shop")], map[], map[], map[], {"a", "b"}, [])

  /** The first apply stores them, and the same apply again is refused. */
  lemma UnsortedBreaksNextApply(name: string, slug: string -> string)
    ensures var d := Unsorted(name, slug);
            && Apply(TWO_PERMISSIONS, d, "a", Refuse, false, slug).1.Ok?
            && Apply(Apply(TWO_PERMISSIONS, d, "a", Refuse, false, slug).0, d, "a", Refuse, false, slug).1.Err?
  {
    var db, d := TWO_PERMISSIONS, Unsorted(name, slug);
    UnsortedTarget(name, slug);
    UnsortedShape(name, slug);
    UnsortedWrites(name, slug);
    UnsortedAccepted(name, slug);
    PlannedApplies(db, d, "a", Refuse, slug);
    UnreadIsRefused(db, d, "a", "a", slug);
  }

  lemma UnsortedAccepted(name: string, slug: string -> string)
    ensures Refusal(TWO_PERMISSIONS, Unsorted(name, slug), "a", slug).None?
  {
    assert 'a' in "a";
  }

  lemma UnsortedTarget(name: string, slug: string -> string)
    ensures var db, d := TWO_PERMISSIONS, Unsorted(name, slug);
            && SectionTarget(db, d, Refuse, slug, Channels) == [] && SectionTarget(db, d, Refuse, slug, Rules) == []
            && SectionTarget(db, d, Refuse, slug, Personas) == d.personas
            && ConflictFree(PlanOf(db, d, Refuse, slug).changes)
  {
    var db, d := TWO_PERMISSIONS, Unsorted(name, slug);
    OneChannel(d.personas[0]);
    OneItemSection(Refuse, "rbac_personas", d.personas[0], ProjectPersonas(db.groups, slug), map[]);
    PlanLogs(db, d, Refuse, slug);
  }

  lemma UnsortedShape(name: string, slug: string -> string)
    ensures Shaped(Unsorted(name, slug)) && !ReadsBack(Unsorted(name, slug))
  {
    var d := Unsorted(name, slug);
    var x := d.personas[0];
    OneChannel(x);
    assert x in Keyed(d.personas);
    var listed := StringsOf(x.fields["permissions"]);
    assert listed == ["b", "a"] && !StrLt(listed[0], listed[1]);
  }

  lemma UnsortedWrites(name: string, slug: string -> string)
    requires SectionTarget(TWO_PERMISSIONS, Unsorted(name, slug), Refuse, slug, Channels) == []
    requires SectionTarget(TWO_PERMISSIONS, Unsorted(name, slug), Refuse, slug, Rules) == []
    requires SectionTarget(TWO_PERMISSIONS, Unsorted(name, slug), Refuse, slug, Personas)
             == Unsorted(name, slug).personas
    ensures WritePlan(TWO_PERMISSIONS, PlanOf(TWO_PERMISSIONS, Unsorted(name, slug), Refuse, slug), slug).Ok?
  {
    var db, d := TWO_PERMISSIONS, Unsorted(name, slug);
    var x := d.personas[0];
    PlanParts(db, d, Refuse, slug);
    assert StringsOf(x.fields["permissions"]) == ["b", "a"];
    assert PersonaOk(db.permissions, x, slug);
    assert [x][1..] == [];
    assert WritePersonas(db.permissions, db.groups, [x], slug).Ok?;
  }

  // ---- Runs ----

  datatype Event =
    | Edit(db: Database)
    | Call(d: Descriptor, actor: string, policy: Policy, dryRun: bool)

  /** An operator edit replaces everything but the trail. */
  function Step(db: Database, e: Event, slug: string -> string): Database {
    match e
    case Edit(edited) => edited.(trail := db.trail)
    case Call(d, actor, policy, dryRun) => Apply(db, d, actor, policy, dryRun, slug).0
  }

  function Run(db: Database, events: seq<Event>, slug: string -> string): Database {
    if events == [] then db else Step(Run(db, events[..|events| - 1], slug), events[|events| - 1], slug)
  }

  predicate TrailClean(trail: seq<Record>) {
    forall i :: 0 <= i < |trail| ==> !DeclaresState(trail[i].descriptor)
  }

  /** A call appends at most one record, of the descriptor it applied. */
  lemma TrailStep(db: Database, d: Descriptor, actor: string, policy: Policy, dryRun: bool, slug: string -> string)
    returns (added: seq<Record>)
    ensures Apply(db, d, actor, policy, dryRun, slug).0.trail == db.trail + added
    ensures |added| <= 1 && (added == [] || added[0].descriptor == d) && TrailClean(added)
  {
    if dryRun || Apply(db, d, actor, policy, dryRun, slug).1.Err? {
      FailedOrDry(db, d, actor, policy, dryRun, slug);
      added := [];
    } else {
      ApplyIsApplied(db, d, actor, policy, slug);
      added := RecordedTail(db, d, PlanOf(db, d, policy, slug).changes, policy, actor);
    }
  }

  lemma RecordedTail(db: Database, d: Descriptor, changes: seq<Change>, policy: Policy, actor: string)
    returns (added: seq<Record>)
    requires !DeclaresState(d)
    ensures Recorded(db, d, changes, policy, actor) == db.trail + added
    ensures |added| <= 1 && (added == [] || added[0].descriptor == d) && TrailClean(added)
  {
    var r := Record(d, changes, policy, actor);
    added := if Recorded(db, d, changes, policy, actor) == db.trail then [] else [r];
    assert db.trail + [] == db.trail;
  }

  /** No run ever records a descriptor that declares operational state. */
  lemma {:induction false} TrailStaysClean(db: Database, events: seq<Event>, slug: string -> string)
    requires TrailClean(db.trail)
    ensures TrailClean(Run(db, events, slug).trail)
    decreases |events|
  {
    if events != [] {
      TrailStaysClean(db, events[..|events| - 1], slug);
      TrailCleanStep(Run(db, events[..|events| - 1], slug), events[|events| - 1], slug);
    }
  }

  lemma TrailCleanStep(db: Database, e: Event, slug: string -> string)
    requires TrailClean(db.trail)
    ensures TrailClean(Step(db, e, slug).trail)
  {
    match e
    case Edit(_) =>
    case Call(d, actor, policy, dryRun) =>
      var added := TrailStep(db, d, actor, policy, dryRun, slug);
  }

  lemma {:induction false} LastIsRecorded(trail: seq<Record>, instanceRef: string)
    ensures var last := LastApplied(trail, instanceRef);
            last.Some? ==> exists i :: 0 <= i < |trail| && trail[i].descriptor == last.value
    decreases |trail|
  {
    if trail != [] && trail[|trail| - 1].descriptor.instanceRef != instanceRef {
      var init := trail[..|trail| - 1];
      LastIsRecorded(init, instanceRef);
      var last := LastApplied(init, instanceRef);
      if last.Some? {
        var i :| 0 <= i < |init| && init[i].descriptor == last.value;
        assert trail[i].descriptor == last.value;
      }
    }
  }

  lemma ItemDeclaresNoState(d: Descriptor, ref: string)
    requires !DeclaresState(d)
    ensures DeclaresNoState(At(Table(d.channels), ref))
  {
    var n := At(Table(d.channels), ref);
    KeyedIsTable(d.channels);
    TableOfObjects(d.channels, ref);
    if n.Some? {
      var x := Item(ref, n.value.fields);
      assert x in d.channels;
      var i :| 0 <= i < |d.channels| && d.channels[i] == x;
      assert Obj(d.channels[i].fields) == n.value;
      forall p | p in CHANNEL_STATE && p != ["enabled"] ensures WalkOrNull(n, p) == Null {
        assert WalkOrNull(Some(Obj(d.channels[i].fields)), p) == Null;
      }
    } else {
      forall p | p in CHANNEL_STATE && p != ["enabled"] ensures WalkOrNull(n, p) == Null { LookupNone(p); }
    }
  }

  /** A declared channel gives up what stands at the path. */
  predicate ApplyGivesUp(db: Database, d: Descriptor, policy: Policy, ref: string, p: seq<string>)
    requires ref in db.channels
  {
    ref in Table(d.channels)
    && GivesUp(policy, Table(d.channels)[ref], ChannelBody(db.channels[ref]), At(LastBase(db, d, Channels), ref), p)
  }

  /**
   Every successful apply, under every policy, from every database and trail: an operational path of a
   stored channel reads as before exactly when nothing stood there or the channel does not give it up.
   */
  lemma ApplyStateExactly(db: Database, d: Descriptor, actor: string, policy: Policy, slug: string -> string,
                          ref: string, p: seq<string>)
    requires Apply(db, d, actor, policy, false, slug).1.Ok? && ref in db.channels && p in CHANNEL_STATE
    ensures ref in Apply(db, d, actor, policy, false, slug).0.channels
    ensures WalkOrNull(Some(ChannelBody(Apply(db, d, actor, policy, false, slug).0.channels[ref])), p)
            == WalkOrNull(Some(ChannelBody(db.channels[ref])), p)
       <==> WalkOrNull(Some(ChannelBody(db.channels[ref])), p) == Null || !ApplyGivesUp(db, d, policy, ref, p)
  {
    var after := Apply(db, d, actor, policy, false, slug).0;
    ApplyIsApplied(db, d, actor, policy, slug);
    ChannelStep(db, d, policy, slug, after.channels, ref);
    var own := At(Table(d.channels), ref);
    if own.Some? {
      ItemDeclaresNoState(d, ref);
      ChannelStateSurvives(policy, Item(ref, own.value.fields), db.channels[ref], At(LastBase(db, d, Channels), ref),
                           p);
    }
  }

  /** With a clean trail, refuse and keep give nothing up. */
  lemma ApplyKeepsState(db: Database, d: Descriptor, actor: string, policy: Policy, dryRun: bool,
                        slug: string -> string,
                        ref: string, p: seq<string>)
    requires policy != Overwrite && ref in db.channels && p in CHANNEL_STATE && TrailClean(db.trail)
    ensures var after := Apply(db, d, actor, policy, dryRun, slug).0;
            && ref in after.channels
            && WalkOrNull(Some(ChannelBody(after.channels[ref])), p)
              == WalkOrNull(Some(ChannelBody(db.channels[ref])), p)
  {
    if dryRun || Apply(db, d, actor, policy, dryRun, slug).1.Err? {
      FailedOrDry(db, d, actor, policy, dryRun, slug);
    } else {
      ApplyStateExactly(db, d, actor, policy, slug, ref, p);
      if ApplyGivesUp(db, d, policy, ref, p) {
        BaseDeclaresNoState(db, d, ref);
        TableOfObjects(d.channels, ref);
        CleanBaseGivesNothingUp(Table(d.channels)[ref], db.channels[ref], At(LastBase(db, d, Channels), ref), p);
      }
    }
  }

  lemma CleanBaseGivesNothingUp(own: Json, row: ChannelRow, b: Node, p: seq<string>)
    requires own.Obj? && p in CHANNEL_STATE && DeclaresNoState(b) && LetGo(own, ChannelBody(row), b, p)
    ensures WalkOrNull(Some(ChannelBody(row)), p) == Null
  {
    assert p == ["enabled"] ==> |p| == 1;
    CleanBaseKeeps(own, ChannelBody(row), b, p);
  }

  lemma BaseDeclaresNoState(db: Database, d: Descriptor, ref: string)
    requires TrailClean(db.trail)
    ensures DeclaresNoState(At(LastBase(db, d, Channels), ref))
  {
    var last := LastApplied(db.trail, d.instanceRef);
    LastIsRecorded(db.trail, d.instanceRef);
    if last.Some? {
      ItemDeclaresNoState(last.value, ref);
    } else {
      forall p | p in CHANNEL_STATE ensures WalkOrNull(At(LastBase(db, d, Channels), ref), p) == Null { LookupNone(p); }
    }
  }

  /**
   In every run, whatever was edited or applied before, a refuse or keep apply leaves the operator's
   switches alone.
   */
  lemma RunKeepsState(db: Database, events: seq<Event>, slug: string -> string,
                      d: Descriptor, actor: string, policy: Policy, dryRun: bool, ref: string, p: seq<string>)
    requires TrailClean(db.trail) && policy != Overwrite
    requires ref in Run(db, events, slug).channels && p in CHANNEL_STATE
    ensures var before, after := Run(db, events, slug), Run(db, events + [Call(d, actor, policy, dryRun)], slug);
            && ref in after.channels
            && WalkOrNull(Some(ChannelBody(after.channels[ref])), p)
              == WalkOrNull(Some(ChannelBody(before.channels[ref])), p)
  {
    var longer := events + [Call(d, actor, policy, dryRun)];
    assert longer[..|longer| - 1] == events;
    TrailStaysClean(db, events, slug);
    ApplyKeepsState(Run(db, events, slug), d, actor, policy, dryRun, slug, ref, p);
  }

  // ---- An edit that no descriptor declares ----

  /**
   Something an operator can edit and an apply writes: a cell of a row, the permissions of a group, the
   shop's name.
   */
  datatype Place =
    | InChannel(ref: string, path: seq<string>)
    | InRule(ref: string, path: seq<string>)
    | InGroup(name: string)
    | ShopName

  predicate Stored(db: Database, place: Place) {
    match place
    case InChannel(ref, _) => ref in db.channels
    case InRule(ref, _) => ref in db.rules
    case InGroup(name) => name in db.groups
    case ShopName => db.shops != []
  }

  /** What stands there. */
  function Cell(db: Database, place: Place): Node
    requires Stored(db, place)
  {
    match place
    case InChannel(ref, path) => Lookup(Some(ChannelBody(db.channels[ref])), path)
    case InRule(ref, path) => Lookup(Some(RuleBody(db.rules[ref])), path)
    case InGroup(name) => Some(Strings(Sorted(db.groups[name])))
    case ShopName => Some(db.shops[0])
  }

  /** What a descriptor declares there. */
  function DeclaredAt(d: Descriptor, place: Place, slug: string -> string): Node {
    match place
    case InChannel(ref, path) => Lookup(At(Table(d.channels), ref), path)
    case InRule(ref, path) => Lookup(At(Table(d.rules), ref), path)
    case InGroup(name) => Get(At(Table(d.personas), slug(name)), "permissions")
    case ShopName => Some(d.displayName)
  }

  function LastDeclared(last: Option<Descriptor>, place: Place, slug: string -> string): Node {
    match last case Some(d) => DeclaredAt(d, place, slug) case None => None
  }

  /** Refuse and keep change what stands at a place only where the last applied descriptor declared it. */
  lemma ApplyKeepsCell(db: Database, d: Descriptor, actor: string, policy: Policy, dryRun: bool,
                       slug: string -> string, place: Place)
    requires policy != Overwrite && Stored(db, place)
    ensures var after := Apply(db, d, actor, policy, dryRun, slug).0;
            && Stored(after, place)
            && Accounted(Cell(db, place), Cell(after, place),
                         LastDeclared(LastApplied(db.trail, d.instanceRef), place, slug))
  {
    match place
    case InChannel(ref, path) =>
      LookupNone(path);
      ApplyKeepsChannelEdits(db, d, actor, policy, dryRun, slug, ref, path);
    case InRule(ref, path) =>
      LookupNone(path);
      ApplyKeepsRuleEdits(db, d, actor, policy, dryRun, slug, ref, path);
    case InGroup(name) => ApplyKeepsGroupEdits(db, d, actor, policy, dryRun, slug, name);
    case ShopName => ApplyKeepsShopName(db, d, actor, policy, dryRun, slug);
  }

  /** No recorded descriptor declares the value at this place. */
  ghost predicate NeverDeclared(trail: seq<Record>, place: Place, slug: string -> string, n: Node) {
    forall i :: 0 <= i < |trail| ==> !SameNode(DeclaredAt(trail[i].descriptor, place, slug), n)
  }

  /** Calls that neither overwrite nor declare the value at this place. */
  ghost predicate NeutralCalls(events: seq<Event>, place: Place, slug: string -> string, n: Node) {
    forall i :: 0 <= i < |events| ==>
      && events[i].Call? && events[i].policy != Overwrite && !SameNode(DeclaredAt(events[i].d, place, slug), n)
  }

  /** Every called Instance was applied before. */
  ghost predicate KnownInstances(trail: seq<Record>, events: seq<Event>) {
    forall i :: 0 <= i < |events| ==> events[i].Call? && LastApplied(trail, events[i].d.instanceRef).Some?
  }

  lemma LastAppliedStays(trail: seq<Record>, added: seq<Record>, instanceRef: string)
    requires LastApplied(trail, instanceRef).Some? && |added| <= 1
    ensures LastApplied(trail + added, instanceRef).Some?
  {
    assert (trail + added)[..|trail|] == trail;
    assert added == [] ==> trail + added == trail;
  }

  lemma NeutralStep(db: Database, e: Event, slug: string -> string, place: Place, n: Node)
    requires Stored(db, place) && Cell(db, place) == n && (n.Some? ==> !n.value.Obj?)
    requires NeverDeclared(db.trail, place, slug, n) && NeutralCalls([e], place, slug, n)
    requires n.None? ==> KnownInstances(db.trail, [e])
    ensures var after := Step(db, e, slug);
            Stored(after, place) && Cell(after, place) == n && NeverDeclared(after.trail, place, slug, n)
  {
    assert [e][0] == e;
    ApplyKeepsCell(db, e.d, e.actor, e.policy, e.dryRun, slug, place);
    LastNeverDeclared(db.trail, e.d.instanceRef, place, slug, n);
    var added := TrailStep(db, e.d, e.actor, e.policy, e.dryRun, slug);
    NeverDeclaredMore(db.trail, added, e.d, place, slug, n);
  }

  lemma NeverDeclaredMore(trail: seq<Record>, added: seq<Record>, d: Descriptor, place: Place, slug: string -> string,
                          n: Node)
    requires NeverDeclared(trail, place, slug, n) && !SameNode(DeclaredAt(d, place, slug), n)
    requires |added| <= 1 && (added == [] || added[0].descriptor == d)
    ensures NeverDeclared(trail + added, place, slug, n)
  {
  }

  lemma LastNeverDeclared(trail: seq<Record>, instanceRef: string, place: Place, slug: string -> string, n: Node)
    requires NeverDeclared(trail, place, slug, n) && (n.None? ==> LastApplied(trail, instanceRef).Some?)
    ensures !SameNode(LastDeclared(LastApplied(trail, instanceRef), place, slug), n)
  {
    LastIsRecorded(trail, instanceRef);
  }

  lemma TrailGrows(db: Database, e: Event, slug: string -> string, instanceRef: string)
    requires LastApplied(db.trail, instanceRef).Some?
    ensures LastApplied(Step(db, e, slug).trail, instanceRef).Some?
  {
    match e
    case Edit(_) =>
    case Call(d, actor, policy, dryRun) =>
      var added := TrailStep(db, d, actor, policy, dryRun, slug);
      LastAppliedStays(db.trail, added, instanceRef);
  }

  lemma {:induction false} TrailGrowsOverRun(db: Database, events: seq<Event>, slug: string -> string,
                                             instanceRef: string)
    requires LastApplied(db.trail, instanceRef).Some?
    ensures LastApplied(Run(db, events, slug).trail, instanceRef).Some?
    decreases |events|
  {
    if events != [] {
      var init := events[..|events| - 1];
      TrailGrowsOverRun(db, init, slug, instanceRef);
      TrailGrows(Run(db, init, slug), events[|events| - 1], slug, instanceRef);
    }
  }

  /**
   An operator's value that no applied descriptor declares there survives any number of refuse and
   keep applies of any descriptors, in every place; so does the operator's removal of a value, once the
   Instances have been applied before.
   */
  lemma {:induction false} EditSurvivesApplies(db: Database, events: seq<Event>, slug: string -> string,
                                               place: Place, n: Node)
    requires Stored(db, place) && Cell(db, place) == n && (n.Some? ==> !n.value.Obj?)
    requires NeverDeclared(db.trail, place, slug, n) && NeutralCalls(events, place, slug, n)
    requires n.None? ==> KnownInstances(db.trail, events)
    ensures var after := Run(db, events, slug);
            Stored(after, place) && Cell(after, place) == n && NeverDeclared(after.trail, place, slug, n)
    decreases |events|
  {
    if events != [] {
      var init, e := events[..|events| - 1], events[|events| - 1];
      EditSurvivesApplies(db, init, slug, place, n);
      if n.None? { TrailGrowsOverRun(db, init, slug, e.d.instanceRef); }
      NeutralStep(Run(db, init, slug), e, slug, place, n);
    }
  }
}
