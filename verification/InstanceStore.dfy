/** The Instance object: planning and applying step by step, all or nothing. */
module InstanceStore {
  import opened Texts
  import opened JsonValues
  import opened Planner
  import opened PlanLog
  import opened InstanceModel

  class InstanceStore {
    const slug: string -> string
    var shops: seq<Json>
    var channels: map<string, ChannelRow>
    var rules: map<string, RuleRow>
    var groups: map<string, set<string>>
    var permissions: set<string>
    var trail: seq<Record>

    function State(): Database
      reads this
    {
      Database(shops, channels, rules, groups, permissions, trail)
    }

    constructor (db: Database, slug: string -> string)
      ensures State() == db && this.slug == slug
    {
      this.slug := slug;
      shops, channels, rules := db.shops, db.channels, db.rules;
      groups, permissions, trail := db.groups, db.permissions, db.trail;
    }

    /** The plan of one section, its changes appended to the planner's log. */
    method PlanSection(planner: Planner, section: string, items: seq<Item>,
                       database: map<string, Json>, base: map<string, Json>)
      returns (merged: seq<Item>)
      modifies planner
      ensures merged == PlannedItems(planner.onDrift, section, items, database, base)
      ensures planner.changes == old(planner.changes) + SectionLog(planner.onDrift, section, items, database, base)
    {
      merged := [];
      for i := 0 to |items|
        invariant |merged| == i
        invariant merged + PlannedItems(planner.onDrift, section, items[i..], database, base)
               == PlannedItems(planner.onDrift, section, items, database, base)
        invariant planner.changes + SectionLog(planner.onDrift, section, items[i..], database, base)
               == old(planner.changes) + SectionLog(planner.onDrift, section, items, database, base)
      {
        var x := items[i];
        ghost var before := planner.changes;
        var target := PlanItem(planner, section, x, At(database, x.ref), At(base, x.ref));
        SectionStep(planner.onDrift, section, items[i..], database, base, before, merged);
        assert items[i..][1..] == items[i+1..];
        merged := merged + [target];
      }
    }

    method PlanItem(planner: Planner, section: string, x: Item, v: Node, b: Node) returns (target: Item)
      modifies planner
      ensures target == PlannedItem(planner.onDrift, section, x, v, b)
      ensures planner.changes == old(planner.changes) + ItemLog(planner.onDrift, section, x, v, b)
    {
      if v.None? || !v.value.Obj? {
        planner.Record(Create, Parts(section, x.ref), Some(Obj(x.fields)), None);
        return x;
      }
      MergedGet(planner.onDrift, section, Obj(x.fields), v.value, b, [], "");
      var merged := planner.Merge(Obj(x.fields), v.value, b, Parts(section, x.ref), section, []);
      return Item(x.ref, merged.fields);
    }

    method PlanName(planner: Planner, d: Descriptor) returns (name: Json)
      modifies planner
      ensures name == PlannedName(State(), d, planner.onDrift)
      ensures planner.changes == old(planner.changes) + NameLog(State(), d, planner.onDrift)
    {
      if shops == [] {
        planner.Record(Create, ["instance", "shop"], Some(d.displayName), None);
        return d.displayName;
      }
      name := planner.Merge(d.displayName, shops[0], BaseName(LastApplied(trail, d.instanceRef)),
                            ["instance", "display_name"], "instance", ["display_name"]);
    }

    /** What an apply would do; writes nothing. */
    method PlanApply(d: Descriptor, policy: Policy) returns (plan: Plan)
      ensures plan == PlanOf(State(), d, policy, slug)
    {
      var planner := new Planner(policy);
      var last := LastApplied(trail, d.instanceRef);
      var name := PlanName(planner, d);
      var c := PlanSection(planner, "channels", Keyed(d.channels), ProjectChannels(channels),
                           BaseTable(last, Channels));
      var r := PlanSection(planner, "rule_configs", Keyed(d.rules), ProjectRules(rules), BaseTable(last, Rules));
      var p := PlanSection(planner, "rbac_personas", Keyed(d.personas), ProjectPersonas(groups, slug),
                           BaseTable(last, Personas));
      plan := Plan(name, c, r, p, planner.changes);
      PlanAssembled(State(), d, policy, slug, plan);
    }

    method ApplyChannels(items: seq<Item>) returns (error: Option<Error>)
      modifies this`channels
      ensures WriteChannels(old(channels), items) == (if error.None? then Ok(channels) else Err(error.value))
    {
      for i := 0 to |items|
        invariant WriteChannels(channels, items[i..]) == WriteChannels(old(channels), items)
      {
        var x := items[i];
        assert items[i..][1..] == items[i+1..];
        var row := ChannelFrom(x);
        if row.None? {
          return Some(BadItem(x.ref));
        }
        var stored := if x.ref in channels then UpdateChannel(channels[x.ref], row.value) else row.value;
        channels := channels[x.ref := stored];
      }
      return None;
    }

    method ApplyRules(items: seq<Item>) returns (error: Option<Error>)
      modifies this`rules
      ensures WriteRules(channels.Keys, old(rules), items) == (if error.None? then Ok(rules) else Err(error.value))
    {
      for i := 0 to |items|
        invariant WriteRules(channels.Keys, rules, items[i..]) == WriteRules(channels.Keys, old(rules), items)
      {
        var x := items[i];
        assert items[i..][1..] == items[i+1..];
        var row := RuleFrom(channels.Keys, x);
        if row.Err? {
          return Some(row.error);
        }
        var stored := if x.ref in rules then UpdateRule(rules[x.ref], row.value) else row.value;
        rules := rules[x.ref := stored];
      }
      return None;
    }

    method SyncPersonas(items: seq<Item>) returns (error: Option<Error>)
      modifies this`groups
      ensures WritePersonas(permissions, old(groups), items, slug)
              == (if error.None? then Ok(groups) else Err(error.value))
    {
      for i := 0 to |items|
        invariant WritePersonas(permissions, groups, items[i..], slug)
                  == WritePersonas(permissions, old(groups), items, slug)
      {
        assert items[i..][1..] == items[i+1..];
        var written := WritePersona(permissions, groups, items[i], slug);
        if written.Err? {
          return Some(written.error);
        }
        groups := written.value;
      }
      return None;
    }

    /** Every write of the plan; on an error the fields may be half written. */
    method WriteAll(plan: Plan) returns (error: Option<Error>)
      requires |shops| <= 1
      modifies this`shops, this`channels, this`rules, this`groups
      ensures WritePlan(old(State()), plan, slug) == (if error.None? then Ok(State()) else Err(error.value))
    {
      shops := WriteShop(shops, plan.displayName);
      error := ApplyChannels(plan.channels);
      if error.None? {
        error := ApplyRules(plan.rules);
        if error.None? {
          error := SyncPersonas(plan.personas);
        }
      }
    }

    /** One apply: atomic, with the report or the refusal. */
    method ApplyToDatabase(d: Descriptor, actor: string, policy: Policy, dryRun: bool)
      returns (report: Result<seq<Change>, Error>)
      modifies this
      ensures (State(), report) == Apply(old(State()), d, actor, policy, dryRun, slug)
    {
      var refusal := Refusal(State(), d, actor, slug);
      if refusal.Some? {
        return Err(refusal.value);
      }
      var plan := PlanApply(d, policy);
      report := CarryOut(d, plan, actor, policy, dryRun);
    }

    /** The part of an apply after its plan is made. */
    method CarryOut(d: Descriptor, plan: Plan, actor: string, policy: Policy, dryRun: bool)
      returns (report: Result<seq<Change>, Error>)
      requires |shops| <= 1
      modifies this
      ensures (State(), report) == Carry(old(State()), d, plan, actor, policy, dryRun, slug)
    {
      if dryRun {
        return Ok(plan.changes);
      }
      var conflicts := Conflicts(plan.changes);
      if conflicts != [] {
        return Err(DriftConflict(conflicts));
      }
      var snapshot := State();
      var error := WriteAll(plan);
      if error.Some? {
        shops, channels, rules, groups := snapshot.shops, snapshot.channels, snapshot.rules, snapshot.groups;
        return Err(error.value);
      }
      trail := Recorded(snapshot, d, plan.changes, policy, actor);
      return Ok(plan.changes);
    }
  }

  lemma SectionStep(policy: Policy, section: string, items: seq<Item>, database: map<string, Json>,
                    base: map<string, Json>,
                    log: seq<Change>, merged: seq<Item>)
    requires items != []
    ensures var x := items[0];
            && merged + PlannedItems(policy, section, items, database, base)
               == (merged + [PlannedItem(policy, section, x, At(database, x.ref), At(base, x.ref))])
                  + PlannedItems(policy, section, items[1..], database, base)
            && log + SectionLog(policy, section, items, database, base)
               == (log + ItemLog(policy, section, x, At(database, x.ref), At(base, x.ref)))
                  + SectionLog(policy, section, items[1..], database, base)
  {
    var x := items[0];
    AppendAssociative(merged, [PlannedItem(policy, section, x, At(database, x.ref), At(base, x.ref))],
                      PlannedItems(policy, section, items[1..], database, base));
    AppendAssociative(log, ItemLog(policy, section, x, At(database, x.ref), At(base, x.ref)),
                      SectionLog(policy, section, items[1..], database, base));
  }

  lemma PlanAssembled(db: Database, d: Descriptor, policy: Policy, slug: string -> string, plan: Plan)
    requires plan.displayName == PlannedName(db, d, policy)
    requires plan.channels == SectionTarget(db, d, policy, slug, Channels)
    requires plan.rules == SectionTarget(db, d, policy, slug, Rules)
    requires plan.personas == SectionTarget(db, d, policy, slug, Personas)
    requires plan.changes == [] + NameLog(db, d, policy) + SectionChanges(db, d, policy, slug, Channels)
                             + SectionChanges(db, d, policy, slug, Rules)
                               + SectionChanges(db, d, policy, slug, Personas)
    ensures plan == PlanOf(db, d, policy, slug)
  {
    assert [] + NameLog(db, d, policy) == NameLog(db, d, policy);
  }
}
