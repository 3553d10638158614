/** What one apply does to a whole section, and why applying twice is applying once. */
module InstanceApply {
  import opened Texts
  import opened JsonValues
  import opened Planner
  import opened PlanLog
  import opened PlanGuarantees
  import opened InstanceModel
  import opened InstanceItems

  function Row<T>(m: map<string, T>, k: string): Option<T> {
    if k in m then Some(m[k]) else None
  }

  // ---- Writing a section ----

  lemma {:induction false} ChannelsElsewhere(channels: map<string, ChannelRow>, items: seq<Item>, ref: string)
    requires WriteChannels(channels, items).Ok?
    requires forall x :: x in items ==> x.ref != ref
    ensures Row(WriteChannels(channels, items).value, ref) == Row(channels, ref)
    decreases |items|
  {
    if items != [] { ChannelsElsewhere(WriteChannel(channels, items[0]).value, items[1..], ref); }
  }

  /** Each written channel is its target written over its own row. */
  lemma {:induction false} ChannelsWritten(channels: map<string, ChannelRow>, items: seq<Item>, x: Item)
    requires UniqueRefs(items) && x in items
    requires WriteChannels(channels, items).Ok?
    ensures ChannelFrom(x).Some?
    ensures Row(WriteChannels(channels, items).value, x.ref) == Some(ChannelAfter(Row(channels, x.ref), x))
    decreases |items|
  {
    var next := WriteChannel(channels, items[0]).value;
    if x == items[0] {
      forall y | y in items[1..] ensures y.ref != x.ref {}
      ChannelsElsewhere(next, items[1..], x.ref);
    } else {
      assert x in items[1..];
      assert x.ref != items[0].ref;
      ChannelsWritten(next, items[1..], x);
    }
  }

  lemma {:induction false} ChannelsFixpoint(channels: map<string, ChannelRow>, items: seq<Item>)
    requires forall x :: x in items ==>
               && x.ref in channels && ChannelFrom(x).Some?
               && UpdateChannel(channels[x.ref], ChannelFrom(x).value) == channels[x.ref]
    ensures WriteChannels(channels, items) == Ok(channels)
    decreases |items|
  {
    if items != [] {
      assert items[0] in items;
      assert channels[items[0].ref := channels[items[0].ref]] == channels;
      ChannelsFixpoint(channels, items[1..]);
    }
  }

  lemma {:induction false} RulesElsewhere(known: set<string>, rules: map<string, RuleRow>, items: seq<Item>,
                                          ref: string)
    requires WriteRules(known, rules, items).Ok?
    requires forall x :: x in items ==> x.ref != ref
    ensures Row(WriteRules(known, rules, items).value, ref) == Row(rules, ref)
    decreases |items|
  {
    if items != [] { RulesElsewhere(known, WriteRule(known, rules, items[0]).value, items[1..], ref); }
  }

  lemma {:induction false} RulesWritten(known: set<string>, rules: map<string, RuleRow>, items: seq<Item>, x: Item)
    requires UniqueRefs(items) && x in items
    requires WriteRules(known, rules, items).Ok?
    ensures RuleFrom(known, x).Ok?
    ensures Row(WriteRules(known, rules, items).value, x.ref) == Some(RuleAfter(known, Row(rules, x.ref), x))
    decreases |items|
  {
    var next := WriteRule(known, rules, items[0]).value;
    if x == items[0] {
      forall y | y in items[1..] ensures y.ref != x.ref {}
      RulesElsewhere(known, next, items[1..], x.ref);
    } else {
      assert x in items[1..];
      assert x.ref != items[0].ref;
      RulesWritten(known, next, items[1..], x);
    }
  }

  lemma {:induction false} RulesFixpoint(known: set<string>, rules: map<string, RuleRow>, items: seq<Item>)
    requires forall x :: x in items ==>
               && x.ref in rules && RuleFrom(known, x).Ok?
               && UpdateRule(rules[x.ref], RuleFrom(known, x).value) == rules[x.ref]
    ensures WriteRules(known, rules, items) == Ok(rules)
    decreases |items|
  {
    if items != [] {
      assert items[0] in items;
      assert rules[items[0].ref := rules[items[0].ref]] == rules;
      RulesFixpoint(known, rules, items[1..]);
    }
  }

  function Granted(x: Item): set<string>
    requires "permissions" in x.fields && IsStrings(x.fields["permissions"])
  {
    Elements(StringsOf(x.fields["permissions"]))
  }

  lemma PersonaWrite(known: set<string>, groups: map<string, set<string>>, x: Item, slug: string -> string)
    ensures WritePersona(known, groups, x, slug).Ok? <==> PersonaOk(known, x, slug)
    ensures PersonaOk(known, x, slug) ==>
              WritePersona(known, groups, x, slug) == Ok(groups[x.fields["name"].s := Granted(x)])
  {
  }

  lemma {:induction false} PersonasAllOk(known: set<string>, groups: map<string, set<string>>, items: seq<Item>,
                                         slug: string -> string)
    requires WritePersonas(known, groups, items, slug).Ok?
    ensures forall x :: x in items ==> PersonaOk(known, x, slug)
    decreases |items|
  {
    if items != [] {
      PersonaWrite(known, groups, items[0], slug);
      PersonasAllOk(known, WritePersona(known, groups, items[0], slug).value, items[1..], slug);
    }
  }

  lemma {:induction false} PersonasElsewhere(known: set<string>, groups: map<string, set<string>>, items: seq<Item>,
                                             slug: string -> string, name: string)
    requires WritePersonas(known, groups, items, slug).Ok?
    requires forall x :: x in items ==> !(PersonaOk(known, x, slug) && x.fields["name"].s == name)
    ensures Row(WritePersonas(known, groups, items, slug).value, name) == Row(groups, name)
    decreases |items|
  {
    if items != [] {
      PersonaWrite(known, groups, items[0], slug);
      assert items[0] in items;
      PersonasElsewhere(known, WritePersona(known, groups, items[0], slug).value, items[1..], slug, name);
    }
  }

  lemma {:induction false} PersonasWritten(known: set<string>, groups: map<string, set<string>>, items: seq<Item>,
                                           slug: string -> string, x: Item)
    requires UniqueRefs(items) && x in items
    requires WritePersonas(known, groups, items, slug).Ok?
    ensures PersonaOk(known, x, slug)
    ensures Row(WritePersonas(known, groups, items, slug).value, x.fields["name"].s) == Some(Granted(x))
    decreases |items|
  {
    PersonasAllOk(known, groups, items, slug);
    PersonaWrite(known, groups, items[0], slug);
    var next := WritePersona(known, groups, items[0], slug).value;
    if x == items[0] {
      forall y | y in items[1..] ensures y.ref != x.ref {}
      PersonasElsewhere(known, next, items[1..], slug, x.fields["name"].s);
    } else {
      assert x in items[1..];
      PersonasWritten(known, next, items[1..], slug, x);
    }
  }

  lemma {:induction false} PersonasFixpoint(known: set<string>, groups: map<string, set<string>>, items: seq<Item>,
                                            slug: string -> string)
    requires forall x :: x in items ==>
               PersonaOk(known, x, slug) && Row(groups, x.fields["name"].s) == Some(Granted(x))
    ensures WritePersonas(known, groups, items, slug) == Ok(groups)
    decreases |items|
  {
    if items != [] {
      PersonaWrite(known, groups, items[0], slug);
      assert groups[items[0].fields["name"].s := Granted(items[0])] == groups;
      PersonasFixpoint(known, groups, items[1..], slug);
    }
  }

  // ---- Planning a section ----

  lemma PlannedUnique(policy: Policy, section: string, items: seq<Item>, database: map<string, Json>,
                      base: map<string, Json>)
    requires UniqueRefs(items)
    ensures UniqueRefs(PlannedItems(policy, section, items, database, base))
  {
    var r := PlannedItems(policy, section, items, database, base);
    forall i, j | 0 <= i < j < |r| ensures r[i].ref != r[j].ref {
      assert r[i].ref == items[i].ref && r[j].ref == items[j].ref;
    }
  }

  lemma PlannedOf(policy: Policy, section: string, items: seq<Item>, database: map<string, Json>,
                  base: map<string, Json>,
                  x: Item)
    requires x in items
    ensures PlannedItem(policy, section, x, At(database, x.ref), At(base, x.ref))
              in PlannedItems(policy, section, items, database, base)
  {
    var i :| 0 <= i < |items| && items[i] == x;
    assert PlannedItems(policy, section, items, database, base)[i] in PlannedItems(policy, section, items, database,
                                                                                   base);
  }

  lemma PlannedFrom(policy: Policy, section: string, items: seq<Item>, database: map<string, Json>,
                    base: map<string, Json>,
                    t: Item)
    returns (x: Item)
    requires t in PlannedItems(policy, section, items, database, base)
    ensures x in items && t == PlannedItem(policy, section, x, At(database, x.ref), At(base, x.ref))
  {
    var r := PlannedItems(policy, section, items, database, base);
    var i :| 0 <= i < |r| && r[i] == t;
    x := items[i];
  }

  lemma {:induction false} ItemLogInSection(policy: Policy, section: string, items: seq<Item>,
                                            database: map<string, Json>, base: map<string, Json>, x: Item)
    requires x in items && ConflictFree(SectionLog(policy, section, items, database, base))
    ensures ConflictFree(ItemLog(policy, section, x, At(database, x.ref), At(base, x.ref)))
    ensures HasWrite(ItemLog(policy, section, x, At(database, x.ref), At(base, x.ref))) ==>
              HasWrite(SectionLog(policy, section, items, database, base))
    decreases |items|
  {
    var first := ItemLog(policy, section, items[0], At(database, items[0].ref), At(base, items[0].ref));
    var rest := SectionLog(policy, section, items[1..], database, base);
    assert forall c :: c in first ==> c in first + rest;
    assert forall c :: c in rest ==> c in first + rest;
    if x != items[0] { ItemLogInSection(policy, section, items[1..], database, base, x); }
  }

  /** An item that is not settled makes the section's log hold a conflict or a write. */
  lemma UnsettledSection(policy: Policy, section: string, items: seq<Item>, database: map<string, Json>,
                         base: map<string, Json>, x: Item)
    requires x in items && x.ref in database && database[x.ref].Obj?
    requires !Settled(policy, section, Obj(x.fields), database[x.ref], [])
    ensures !ConflictFree(SectionLog(policy, section, items, database, base))
            || HasWrite(SectionLog(policy, section, items, database, base))
    ensures policy == Refuse && At(base, x.ref) == Some(Obj(x.fields)) ==>
              !ConflictFree(SectionLog(policy, section, items, database, base))
  {
    if ConflictFree(SectionLog(policy, section, items, database, base)) {
      ItemLogInSection(policy, section, items, database, base, x);
      var log := ItemLog(policy, section, x, Some(database[x.ref]), At(base, x.ref));
      if policy == Refuse && At(base, x.ref) == Some(Obj(x.fields)) {
        RefuseHolds(section, Obj(x.fields), database[x.ref], []);
        WritesIffChanged(policy, section, Obj(x.fields), database[x.ref], Some(Obj(x.fields)), Parts(section, x.ref),
                         []);
      }
      if !HasWrite(log) {
        QuietIsSettled(policy, section, Obj(x.fields), database[x.ref], At(base, x.ref), Parts(section, x.ref), []);
      }
    }
  }

  /** Every item is settled and is its own base: planning it again yields it and logs nothing to write. */
  lemma {:induction false} SettledSection(policy: Policy, section: string, items: seq<Item>,
                                          database: map<string, Json>, base: map<string, Json>)
    requires forall x :: x in items ==>
               && x.ref in database && database[x.ref].Obj?
               && At(base, x.ref) == Some(Obj(x.fields))
               && Settled(policy, section, Obj(x.fields), database[x.ref], [])
    ensures ConflictFree(SectionLog(policy, section, items, database, base))
    ensures !HasWrite(SectionLog(policy, section, items, database, base))
    ensures forall t :: t in PlannedItems(policy, section, items, database, base) ==>
              exists x :: x in items && t == Item(x.ref, database[x.ref].fields)
    decreases |items|
  {
    if items != [] {
      var x := items[0];
      assert x in items;
      SettledQuiet(policy, section, Obj(x.fields), database[x.ref], Parts(section, x.ref), []);
      SettledWritesNothing(policy, section, Obj(x.fields), database[x.ref], Parts(section, x.ref), []);
      SettledSection(policy, section, items[1..], database, base);
    }
  }

  // ---- Each section after a conflict-free apply ----

  /** What the second apply finds for a channel the first one wrote. */
  ghost predicate ChannelDone(policy: Policy, x: Item, channels: map<string, ChannelRow>) {
    && x.ref in channels
    && Settled(policy, "channels", Obj(x.fields), ChannelBody(channels[x.ref]), [])
    && var back := Item(x.ref, ChannelBody(channels[x.ref]).fields);
       ChannelFrom(back).Some? && UpdateChannel(channels[x.ref], ChannelFrom(back).value) == channels[x.ref]
  }

  lemma ChannelsDone(policy: Policy, items: seq<Item>, channels: map<string, ChannelRow>, base: map<string, Json>,
                     x: Item)
    requires UniqueRefs(items) && x in items && CanonicalChannel(policy, x)
    requires ConflictFree(SectionLog(policy, "channels", items, ProjectChannels(channels), base))
    requires WriteChannels(channels, PlannedItems(policy, "channels", items, ProjectChannels(channels), base)).Ok?
    ensures ChannelDone(policy, x,
              WriteChannels(channels, PlannedItems(policy, "channels", items, ProjectChannels(channels), base)).value)
  {
    var table := ProjectChannels(channels);
    var target := PlannedItems(policy, "channels", items, table, base);
    var v, b := ChannelNode(Row(channels, x.ref)), At(base, x.ref);
    assert At(table, x.ref) == v;
    PlannedUnique(policy, "channels", items, table, base);
    PlannedOf(policy, "channels", items, table, base, x);
    ItemLogInSection(policy, "channels", items, table, base, x);
    ChannelsWritten(channels, target, PlannedItem(policy, "channels", x, v, b));
    ChannelConverges(policy, x, Row(channels, x.ref), b);
  }

  /** A rule whose list is not sorted reads back otherwise than it is declared, unless the operator's side is kept. */
  lemma UnsortedRule(policy: Policy, known: set<string>, items: seq<Item>, rules: map<string, RuleRow>,
                     base: map<string, Json>, x: Item, after: map<string, RuleRow>)
    requires UniqueRefs(items) && x in items && ShapedRule(x) && !RuleListSorted(x) && policy != Keep
    requires ConflictFree(SectionLog(policy, "rule_configs", items, ProjectRules(rules), base))
    requires WriteRules(known, rules, PlannedItems(policy, "rule_configs", items, ProjectRules(rules), base))
             == Ok(after)
    ensures x.ref in after && !Settled(policy, "rule_configs", Obj(x.fields), RuleBody(after[x.ref]), [])
  {
    var table := ProjectRules(rules);
    var target := PlannedItems(policy, "rule_configs", items, table, base);
    var v, b := RuleNode(Row(rules, x.ref)), At(base, x.ref);
    assert At(table, x.ref) == v;
    PlannedUnique(policy, "rule_configs", items, table, base);
    PlannedOf(policy, "rule_configs", items, table, base, x);
    ItemLogInSection(policy, "rule_configs", items, table, base, x);
    RulesWritten(known, rules, target, PlannedItem(policy, "rule_configs", x, v, b));
    UnsortedRuleUnsettled(policy, known, x, Row(rules, x.ref), b);
  }

  ghost predicate RuleDone(policy: Policy, known: set<string>, x: Item, rules: map<string, RuleRow>) {
    && x.ref in rules
    && Settled(policy, "rule_configs", Obj(x.fields), RuleBody(rules[x.ref]), [])
    && RuleFrom(known, Item(x.ref, RuleBody(rules[x.ref]).fields)) == Ok(rules[x.ref])
    && UpdateRule(rules[x.ref], rules[x.ref]) == rules[x.ref]
  }

  lemma RulesDone(policy: Policy, known: set<string>, items: seq<Item>, rules: map<string, RuleRow>,
                  base: map<string, Json>, x: Item)
    requires UniqueRefs(items) && x in items && CanonicalRule(policy, x)
    requires ConflictFree(SectionLog(policy, "rule_configs", items, ProjectRules(rules), base))
    requires WriteRules(known, rules, PlannedItems(policy, "rule_configs", items, ProjectRules(rules), base)).Ok?
    ensures RuleDone(policy, known, x,
              WriteRules(known, rules, PlannedItems(policy, "rule_configs", items, ProjectRules(rules), base)).value)
  {
    var table := ProjectRules(rules);
    var target := PlannedItems(policy, "rule_configs", items, table, base);
    var v, b := RuleNode(Row(rules, x.ref)), At(base, x.ref);
    assert At(table, x.ref) == v;
    PlannedUnique(policy, "rule_configs", items, table, base);
    PlannedOf(policy, "rule_configs", items, table, base, x);
    ItemLogInSection(policy, "rule_configs", items, table, base, x);
    RulesWritten(known, rules, target, PlannedItem(policy, "rule_configs", x, v, b));
    RuleConverges(policy, known, x, Row(rules, x.ref), b);
  }

  lemma GroupProjected(groups: map<string, set<string>>, slug: string -> string, ref: string)
    ensures At(ProjectPersonas(groups, slug), ref) == PersonaNode(GroupOf(groups, slug, ref))
  {
    var refs := set n | n in groups :: slug(n);
    if GroupOf(groups, slug, ref).Some? { assert slug(GroupOf(groups, slug, ref).value.0) in refs; }
  }

  lemma GroupUnique(groups: map<string, set<string>>, slug: string -> string, name: string)
    requires SlugsUnique(groups, slug) && name in groups
    ensures GroupOf(groups, slug, slug(name)) == Some((name, groups[name]))
  {
    var names := set n | n in groups && slug(n) == slug(name);
    assert name in names;
  }

  /** No target persona renames a group that keeps its ref. */
  predicate NoRename(groups: map<string, set<string>>, target: seq<Item>, slug: string -> string) {
    forall i, n :: 0 <= i < |target| && n in groups && slug(n) == target[i].ref ==>
      "name" in target[i].fields && target[i].fields["name"] == Str(n)
  }

  /** Writing personas keeps the refs distinct exactly when it renames none. */
  lemma SlugsAfterWrite(known: set<string>, groups: map<string, set<string>>, target: seq<Item>, slug: string -> string)
    requires SlugsUnique(groups, slug) && UniqueRefs(target)
    requires WritePersonas(known, groups, target, slug).Ok?
    ensures SlugsUnique(WritePersonas(known, groups, target, slug).value, slug) <==> NoRename(groups, target, slug)
  {
    var after := WritePersonas(known, groups, target, slug).value;
    PersonasAllOk(known, groups, target, slug);
    forall n | n in groups ensures n in after { GroupKept(known, groups, target, slug, n); }
    forall x | x in target ensures x.fields["name"].s in after { PersonasWritten(known, groups, target, slug, x); }
    if SlugsUnique(after, slug) {
      forall i, n | 0 <= i < |target| && n in groups && slug(n) == target[i].ref
        ensures "name" in target[i].fields && target[i].fields["name"] == Str(n)
      {
        assert target[i] in target;
      }
    }
    if NoRename(groups, target, slug) {
      forall a, b | a in after && b in after && slug(a) == slug(b) ensures a == b {
        var x := NewGroup(known, groups, target, slug, a);
        var y := NewGroup(known, groups, target, slug, b);
        if x.Some? && y.Some? { SameRefSameItem(target, x.value, y.value); }
      }
    }
  }

  lemma SameRefSameItem(items: seq<Item>, i: nat, j: nat)
    requires UniqueRefs(items) && i < |items| && j < |items| && items[i].ref == items[j].ref
    ensures i == j
  {
  }

  lemma GroupKept(known: set<string>, groups: map<string, set<string>>, target: seq<Item>, slug: string -> string,
                  name: string)
    requires UniqueRefs(target) && WritePersonas(known, groups, target, slug).Ok? && name in groups
    ensures name in WritePersonas(known, groups, target, slug).value
  {
    if x :| x in target && PersonaOk(known, x, slug) && x.fields["name"].s == name {
      PersonasWritten(known, groups, target, slug, x);
    } else {
      PersonasElsewhere(known, groups, target, slug, name);
    }
  }

  /** A group after the write was there before or is a target persona's. */
  lemma NewGroup(known: set<string>, groups: map<string, set<string>>, target: seq<Item>, slug: string -> string,
                 name: string)
    returns (i: Option<nat>)
    requires WritePersonas(known, groups, target, slug).Ok?
    requires name in WritePersonas(known, groups, target, slug).value
    ensures i.None? ==> name in groups
    ensures i.Some? ==> i.value < |target| && PersonaOk(known, target[i.value], slug)
                        && target[i.value].fields["name"].s == name && target[i.value].ref == slug(name)
  {
    if x :| x in target && PersonaOk(known, x, slug) && x.fields["name"].s == name {
      var k :| 0 <= k < |target| && target[k] == x;
      i := Some(k);
    } else {
      PersonasElsewhere(known, groups, target, slug, name);
      i := None;
    }
  }

  ghost predicate PersonaDone(policy: Policy, known: set<string>, x: Item, groups: map<string, set<string>>,
                              slug: string -> string) {
    && var g := GroupOf(groups, slug, x.ref);
       && g.Some?
       && Settled(policy, "rbac_personas", Obj(x.fields), PersonaBody(g.value.0, g.value.1), [])
       && var back := Item(x.ref, PersonaBody(g.value.0, g.value.1).fields);
          PersonaOk(known, back, slug) && Row(groups, g.value.0) == Some(Granted(back))
  }

  lemma PersonasDone(policy: Policy, known: set<string>, items: seq<Item>, groups: map<string, set<string>>,
                     base: map<string, Json>, slug: string -> string, x: Item)
    requires UniqueRefs(items) && x in items && CanonicalPersona(policy, x) && SlugsUnique(groups, slug)
    requires ConflictFree(SectionLog(policy, "rbac_personas", items, ProjectPersonas(groups, slug), base))
    requires var target := PlannedItems(policy, "rbac_personas", items, ProjectPersonas(groups, slug), base);
             && WritePersonas(known, groups, target, slug).Ok?
             && SlugsUnique(WritePersonas(known, groups, target, slug).value, slug)
    ensures var target := PlannedItems(policy, "rbac_personas", items, ProjectPersonas(groups, slug), base);
            PersonaDone(policy, known, x, WritePersonas(known, groups, target, slug).value, slug)
  {
    var table := ProjectPersonas(groups, slug);
    var target := PlannedItems(policy, "rbac_personas", items, table, base);
    var after := WritePersonas(known, groups, target, slug).value;
    var stored, b := GroupOf(groups, slug, x.ref), At(base, x.ref);
    GroupProjected(groups, slug, x.ref);
    PlannedUnique(policy, "rbac_personas", items, table, base);
    PlannedOf(policy, "rbac_personas", items, table, base, x);
    ItemLogInSection(policy, "rbac_personas", items, table, base, x);
    var t := PlannedItem(policy, "rbac_personas", x, PersonaNode(stored), b);
    PersonasWritten(known, groups, target, slug, t);
    if stored.Some? { StoredGroupKept(known, groups, target, slug, x.ref); }
    PersonaConverges(policy, known, x, stored, b, slug);
    GroupUnique(after, slug, t.fields["name"].s);
    var back := Item(x.ref, PersonaBody(t.fields["name"].s, Granted(t)).fields);
    assert Granted(back) == Granted(t);
  }

  lemma UnsortedPersona(policy: Policy, known: set<string>, items: seq<Item>, groups: map<string, set<string>>,
                        base: map<string, Json>, slug: string -> string, x: Item, after: map<string, set<string>>)
    requires UniqueRefs(items) && x in items && !PersonaListSorted(x) && policy != Keep && SlugsUnique(groups, slug)
    requires ConflictFree(SectionLog(policy, "rbac_personas", items, ProjectPersonas(groups, slug), base))
    requires WritePersonas(known, groups, PlannedItems(policy, "rbac_personas", items, ProjectPersonas(groups, slug),
                                                       base), slug) == Ok(after)
    requires SlugsUnique(after, slug)
    ensures var g := GroupOf(after, slug, x.ref);
            && g.Some?
            && !Settled(policy, "rbac_personas", Obj(x.fields), PersonaBody(g.value.0, g.value.1), [])
  {
    var table := ProjectPersonas(groups, slug);
    var target := PlannedItems(policy, "rbac_personas", items, table, base);
    var stored, b := GroupOf(groups, slug, x.ref), At(base, x.ref);
    GroupProjected(groups, slug, x.ref);
    PlannedUnique(policy, "rbac_personas", items, table, base);
    PlannedOf(policy, "rbac_personas", items, table, base, x);
    ItemLogInSection(policy, "rbac_personas", items, table, base, x);
    var t := PlannedItem(policy, "rbac_personas", x, PersonaNode(stored), b);
    PersonasWritten(known, groups, target, slug, t);
    UnsortedPersonaUnsettled(policy, known, x, stored, b, slug);
    GroupUnique(after, slug, t.fields["name"].s);
  }

  lemma StoredGroupKept(known: set<string>, groups: map<string, set<string>>, target: seq<Item>,
                        slug: string -> string, ref: string)
    requires UniqueRefs(target) && WritePersonas(known, groups, target, slug).Ok?
    requires GroupOf(groups, slug, ref).Some?
    ensures var name := GroupOf(groups, slug, ref).value.0;
            name in groups && slug(name) == ref && name in WritePersonas(known, groups, target, slug).value
  {
    GroupKept(known, groups, target, slug, GroupOf(groups, slug, ref).value.0);
  }

  // ---- Each section applied again ----

  /** The base table holds every item as it is declared. */
  ghost predicate IsBase(items: seq<Item>, base: map<string, Json>) {
    forall x :: x in items ==> At(base, x.ref) == Some(Obj(x.fields))
  }

  lemma ChannelsTwice(policy: Policy, items: seq<Item>, before: map<string, ChannelRow>, base: map<string, Json>,
                      after: map<string, ChannelRow>, next: map<string, Json>)
    requires UniqueRefs(items) && IsBase(items, next)
    requires forall x :: x in items ==> CanonicalChannel(policy, x)
    requires ConflictFree(SectionLog(policy, "channels", items, ProjectChannels(before), base))
    requires WriteChannels(before, PlannedItems(policy, "channels", items, ProjectChannels(before), base)) == Ok(after)
    ensures ConflictFree(SectionLog(policy, "channels", items, ProjectChannels(after), next))
    ensures !HasWrite(SectionLog(policy, "channels", items, ProjectChannels(after), next))
    ensures WriteChannels(after, PlannedItems(policy, "channels", items, ProjectChannels(after), next)) == Ok(after)
  {
    var table := ProjectChannels(after);
    forall x | x in items ensures ChannelDone(policy, x, after) {
      ChannelsDone(policy, items, before, base, x);
    }
    SettledSection(policy, "channels", items, table, next);
    var again := PlannedItems(policy, "channels", items, table, next);
    forall t | t in again
      ensures t.ref in after && ChannelFrom(t).Some?
              && UpdateChannel(after[t.ref], ChannelFrom(t).value) == after[t.ref]
    {
      var x :| x in items && t == Item(x.ref, table[x.ref].fields);
      assert ChannelDone(policy, x, after);
    }
    ChannelsFixpoint(after, again);
  }

  lemma RulesTwice(policy: Policy, known: set<string>, items: seq<Item>, before: map<string, RuleRow>,
                   base: map<string, Json>,
                   after: map<string, RuleRow>, next: map<string, Json>)
    requires UniqueRefs(items) && IsBase(items, next)
    requires forall x :: x in items ==> CanonicalRule(policy, x)
    requires ConflictFree(SectionLog(policy, "rule_configs", items, ProjectRules(before), base))
    requires WriteRules(known, before, PlannedItems(policy, "rule_configs", items, ProjectRules(before), base))
             == Ok(after)
    ensures ConflictFree(SectionLog(policy, "rule_configs", items, ProjectRules(after), next))
    ensures !HasWrite(SectionLog(policy, "rule_configs", items, ProjectRules(after), next))
    ensures WriteRules(known, after, PlannedItems(policy, "rule_configs", items, ProjectRules(after), next))
            == Ok(after)
  {
    var table := ProjectRules(after);
    forall x | x in items ensures RuleDone(policy, known, x, after) {
      RulesDone(policy, known, items, before, base, x);
    }
    SettledSection(policy, "rule_configs", items, table, next);
    var again := PlannedItems(policy, "rule_configs", items, table, next);
    forall t | t in again
      ensures t.ref in after && RuleFrom(known, t).Ok?
              && UpdateRule(after[t.ref], RuleFrom(known, t).value) == after[t.ref]
    {
      var x :| x in items && t == Item(x.ref, table[x.ref].fields);
      assert RuleDone(policy, known, x, after);
    }
    RulesFixpoint(known, after, again);
  }

  lemma PersonasTwice(policy: Policy, known: set<string>, items: seq<Item>, slug: string -> string,
                      before: map<string, set<string>>, base: map<string, Json>,
                      after: map<string, set<string>>, next: map<string, Json>)
    requires UniqueRefs(items) && IsBase(items, next)
    requires forall x :: x in items ==> CanonicalPersona(policy, x)
    requires SlugsUnique(before, slug) && SlugsUnique(after, slug)
    requires ConflictFree(SectionLog(policy, "rbac_personas", items, ProjectPersonas(before, slug), base))
    requires WritePersonas(known, before, PlannedItems(policy, "rbac_personas", items, ProjectPersonas(before, slug),
                                                       base), slug)
          == Ok(after)
    ensures ConflictFree(SectionLog(policy, "rbac_personas", items, ProjectPersonas(after, slug), next))
    ensures !HasWrite(SectionLog(policy, "rbac_personas", items, ProjectPersonas(after, slug), next))
    ensures WritePersonas(known, after, PlannedItems(policy, "rbac_personas", items, ProjectPersonas(after, slug),
                                                     next), slug)
         == Ok(after)
  {
    var table := ProjectPersonas(after, slug);
    forall x | x in items
      ensures PersonaDone(policy, known, x, after, slug)
      ensures At(table, x.ref) == PersonaNode(GroupOf(after, slug, x.ref))
    {
      PersonasDone(policy, known, items, before, base, slug, x);
      GroupProjected(after, slug, x.ref);
    }
    SettledSection(policy, "rbac_personas", items, table, next);
    var again := PlannedItems(policy, "rbac_personas", items, table, next);
    forall t | t in again ensures PersonaOk(known, t, slug) && Row(after, t.fields["name"].s) == Some(Granted(t)) {
      var x :| x in items && t == Item(x.ref, table[x.ref].fields);
      PersonaDoneAgain(policy, known, x, after, slug, t);
    }
    PersonasFixpoint(known, after, again, slug);
  }

  lemma PersonaDoneAgain(policy: Policy, known: set<string>, x: Item, groups: map<string, set<string>>,
                         slug: string -> string,
                         t: Item)
    requires PersonaDone(policy, known, x, groups, slug)
    requires t == Item(x.ref, PersonaNode(GroupOf(groups, slug, x.ref)).value.fields)
    ensures PersonaOk(known, t, slug) && Row(groups, t.fields["name"].s) == Some(Granted(t))
  {
  }
}
