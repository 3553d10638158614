/** What a successful apply delivers, row by row, told without its steps. */
module InstanceLaws {
  import opened Texts
  import opened JsonValues
  import opened Planner
  import opened PlanLog
  import opened PlanGuarantees
  import opened PlanLaws
  import opened InstanceModel
  import opened InstanceRows
  import opened InstanceItems
  import opened InstanceApply
  import opened InstanceConvergence
  import opened InstanceRuns

  // ---- Which calls are let through ----

  /** White space, as far as it is plain text. */
  predicate IsSpace(c: char) {
    c == ' ' || '\t' <= c <= '\r' || '\U{1c}' <= c <= '\U{1f}'
  }

  lemma SpaceExactly(c: char)
    ensures IsSpace(c) <==> Blank([c])
  {
    var spaces := ['\t', '\n', '\U{b}', '\U{c}', '\r', '\U{1c}', '\U{1d}', '\U{1e}', '\U{1f}'];
    assert c in [c] && forall x :: x in [c] ==> x == c;
    if '\t' <= c <= '\r' { assert spaces[c as int - 9] == c; }
    if '\U{1c}' <= c <= '\U{1f}' { assert spaces[c as int - 23] == c; }
  }

  /**
   An apply plans at all exactly when it has an actor, declares no operator's state and finds one shop and
   clear refs.
   */
  lemma AcceptedExactly(db: Database, d: Descriptor, actor: string, slug: string -> string)
    ensures Refusal(db, d, actor, slug) == None <==>
            && (exists c :: c in actor && !IsSpace(c))
            && (forall x :: x in d.channels ==> DeclaresNoState(Some(Obj(x.fields))))
            && |db.shops| <= 1 && SlugsUnique(db.groups, slug)
  {
    forall c: char ensures IsSpace(c) <==> Blank([c]) { SpaceExactly(c); }
    assert Blank(actor) <==> forall c :: c in actor ==> Blank([c]);
    if !DeclaresState(d) {
      forall x | x in d.channels ensures DeclaresNoState(Some(Obj(x.fields))) {
        var i :| 0 <= i < |d.channels| && d.channels[i] == x;
        forall p | p in CHANNEL_STATE && p != ["enabled"] ensures WalkOrNull(Some(Obj(x.fields)), p) == Null {
          assert WalkOrNull(Some(Obj(d.channels[i].fields)), p) == Null;
        }
      }
    } else {
      var i, p :| 0 <= i < |d.channels| && p in CHANNEL_STATE && p != ["enabled"]
                  && WalkOrNull(Some(Obj(d.channels[i].fields)), p) != Null;
      assert d.channels[i] in d.channels && !DeclaresNoState(Some(Obj(d.channels[i].fields)));
    }
  }

  /** A call that is not let through, a dry run and a call that fails leave everything as it was. */
  lemma NothingHalfDone(db: Database, d: Descriptor, actor: string, policy: Policy, dryRun: bool,
                        slug: string -> string)
    ensures dryRun || Apply(db, d, actor, policy, dryRun, slug).1.Err? ==>
              Apply(db, d, actor, policy, dryRun, slug).0 == db
    ensures Refusal(db, d, actor, slug).Some? ==>
              Apply(db, d, actor, policy, dryRun, slug).1 == Err(Refusal(db, d, actor, slug).value)
  {
  }

  // ---- What a plan says ----

  /** The entries of a section are those of its items. */
  lemma {:induction false} SectionLogged(policy: Policy, section: string, items: seq<Item>,
                                         database: map<string, Json>, base: map<string, Json>, c: Change)
    ensures c in SectionLog(policy, section, items, database, base) <==>
            exists x :: x in items && c in ItemLog(policy, section, x, At(database, x.ref), At(base, x.ref))
    decreases |items|
  {
    if items != [] {
      SectionLogged(policy, section, items[1..], database, base, c);
      assert items == [items[0]] + items[1..];
    }
  }

  /** An item that is not stored is created, as declared; of a stored one every decision is told, at its place. */
  ghost predicate ItemTells(policy: Policy, section: string, x: Item, v: Node, b: Node, c: Change) {
    if v.None? then c == Change(Create, ["bootstrap", section, x.ref], Some(Obj(x.fields)), None)
    else
      v.value.Obj? && exists path: seq<string> ::
        c.path == ["bootstrap", section, x.ref] + path
          && ToldAt(policy, section, Obj(x.fields), v.value, b, [], path, c)
  }

  lemma ItemLogged(policy: Policy, section: string, x: Item, v: Node, b: Node, c: Change)
    requires v.Some? ==> v.value.Obj?
    ensures c in ItemLog(policy, section, x, v, b) <==> ItemTells(policy, section, x, v, b, c)
  {
    if v.Some? { LogExactly(policy, section, Obj(x.fields), v.value, b, Parts(section, x.ref), [], c); }
  }

  /** The display name: created with the shop, or decided like any other value. */
  ghost predicate NameTells(db: Database, d: Descriptor, policy: Policy, c: Change) {
    if db.shops == [] then c == Change(Create, ["instance", "shop"], Some(d.displayName), None)
    else
      exists path: seq<string> ::
        && c.path == ["instance", "display_name"] + path
        && ToldAt(policy, "instance", d.displayName, db.shops[0], BaseName(LastApplied(db.trail, d.instanceRef)),
                  ["display_name"], path, c)
  }

  lemma NameLogged(db: Database, d: Descriptor, policy: Policy, c: Change)
    ensures c in NameLog(db, d, policy) <==> NameTells(db, d, policy, c)
  {
    if db.shops != [] {
      LogExactly(policy, "instance", d.displayName, db.shops[0], BaseName(LastApplied(db.trail, d.instanceRef)),
                 ["instance", "display_name"], ["display_name"], c);
    }
  }

  ghost predicate SectionTells(db: Database, d: Descriptor, policy: Policy, slug: string -> string, s: Section,
                               c: Change) {
    exists x :: x in Keyed(Declared(d, s))
                && ItemTells(policy, s.Name(), x, At(Projected(db, s, slug), x.ref), At(LastBase(db, d, s), x.ref), c)
  }

  lemma SectionLoggedExactly(db: Database, d: Descriptor, policy: Policy, slug: string -> string, s: Section, c: Change)
    ensures c in SectionChanges(db, d, policy, slug, s) <==> SectionTells(db, d, policy, slug, s, c)
  {
    var items, table, base := Keyed(Declared(d, s)), Projected(db, s, slug), LastBase(db, d, s);
    SectionLogged(policy, s.Name(), items, table, base, c);
    forall x | x in items
      ensures c in ItemLog(policy, s.Name(), x, At(table, x.ref), At(base, x.ref))
         <==> ItemTells(policy, s.Name(), x, At(table, x.ref), At(base, x.ref), c)
    {
      ProjectedObjects(db, s, slug, x.ref);
      ItemLogged(policy, s.Name(), x, At(table, x.ref), At(base, x.ref), c);
    }
  }

  lemma ProjectedObjects(db: Database, s: Section, slug: string -> string, ref: string)
    ensures At(Projected(db, s, slug), ref).Some? ==> At(Projected(db, s, slug), ref).value.Obj?
  {
  }

  /** The plan reports exactly what is decided of the display name and of each declared item. */
  lemma PlanTells(db: Database, d: Descriptor, policy: Policy, slug: string -> string, c: Change)
    ensures c in PlanOf(db, d, policy, slug).changes <==>
            NameTells(db, d, policy, c) || exists s: Section :: SectionTells(db, d, policy, slug, s, c)
  {
    NameLogged(db, d, policy, c);
    SectionLoggedExactly(db, d, policy, slug, Channels, c);
    SectionLoggedExactly(db, d, policy, slug, Rules, c);
    SectionLoggedExactly(db, d, policy, slug, Personas, c);
    InJoin(NameLog(db, d, policy), SectionChanges(db, d, policy, slug, Channels),
           SectionChanges(db, d, policy, slug, Rules), SectionChanges(db, d, policy, slug, Personas), c);
    forall s: Section | SectionTells(db, d, policy, slug, s, c)
      ensures c in PlanOf(db, d, policy, slug).changes
    {
      SectionLoggedExactly(db, d, policy, slug, s, c);
    }
  }

  lemma InJoin(n: seq<Change>, a: seq<Change>, b: seq<Change>, p: seq<Change>, c: Change)
    ensures c in n + a + b + p <==> c in n || c in a || c in b || c in p
  {
  }

  /** The empty values, which a free column is listed as an empty mapping for. */
  lemma EmptyExactly(j: Json)
    ensures OrEmpty(j) == Obj(map[]) <==>
            j in {Null, Bool(false), Int(0), Float(0.0), Str(""), Arr([]), Obj(map[])}
    ensures OrEmpty(j) == j || OrEmpty(j) == Obj(map[])
  {
  }

  // ---- A row that was not there ----

  /** What is declared, or what a row has without it. */
  function Or(n: Node, default: Json): Json {
    match n case Some(j) => j case None => default
  }

  /** A channel that is created holds what is declared, and the house's defaults for the rest. */
  lemma CreatedChannel(db: Database, d: Descriptor, actor: string, policy: Policy, slug: string -> string, ref: string)
    requires Apply(db, d, actor, policy, false, slug).1.Ok?
    requires ref in Table(d.channels) && ref !in db.channels
    ensures var after, x := Apply(db, d, actor, policy, false, slug).0, Some(Table(d.channels)[ref]);
            && ref in after.channels
            && after.channels[ref] == ChannelRow(Or(Cfg(x, "name"), Str("")),
                                                 Or(Cfg(x, "commerce_policy"), Str("order")),
                                                 Or(Cfg(x, "display_order"), Int(0)),
                                                   Or(Cfg(x, "overrides"), Obj(map[])),
                                                 Or(Get(x, "enabled"), Bool(true)))
  {
    var after := Apply(db, d, actor, policy, false, slug).0;
    ApplyIsApplied(db, d, actor, policy, slug);
    ChannelStep(db, d, policy, slug, after.channels, ref);
    ChannelHolds(Item(ref, Table(d.channels)[ref].fields));
  }

  lemma ChannelHolds(x: Item)
    requires ChannelFrom(x).Some?
    ensures var n := Some(Obj(x.fields));
            ChannelFrom(x).value == ChannelRow(Or(Cfg(n, "name"), Str("")), Or(Cfg(n, "commerce_policy"), Str("order")),
                                               Or(Cfg(n, "display_order"), Int(0)), Or(Cfg(n, "overrides"), Obj(map[])),
                                               Or(Get(n, "enabled"), Bool(true)))
  {
  }

  /** A rule that is created holds what is declared, and is on unless declared off. */
  lemma CreatedRule(db: Database, d: Descriptor, actor: string, policy: Policy, slug: string -> string, ref: string)
    requires Apply(db, d, actor, policy, false, slug).1.Ok?
    requires ref in Table(d.rules) && ref !in db.rules
    ensures var after, x := Apply(db, d, actor, policy, false, slug).0, Some(Table(d.rules)[ref]);
            && ref in after.rules && Cfg(x, "channels").Some? && IsStrings(Cfg(x, "channels").value)
            && Some(after.rules[ref].path) == Cfg(x, "rule_path") && Some(after.rules[ref].title) == Cfg(x, "label")
            && Some(after.rules[ref].params) == Cfg(x, "params")
              && Some(after.rules[ref].priority) == Cfg(x, "priority")
            && after.rules[ref].enabled == Or(Get(x, "enabled"), Bool(true))
            && (forall c :: c in after.rules[ref].channels <==> Str(c) in Cfg(x, "channels").value.items)
            && after.rules[ref].channels <= after.channels.Keys
  {
    var after := Apply(db, d, actor, policy, false, slug).0;
    ApplyIsApplied(db, d, actor, policy, slug);
    RuleStep(db, d, policy, slug, after.channels.Keys, after.rules, ref);
    RuleHolds(after.channels.Keys, Item(ref, Table(d.rules)[ref].fields));
  }

  lemma RuleHolds(known: set<string>, x: Item)
    requires RuleFrom(known, x).Ok?
    ensures var n, row := Some(Obj(x.fields)), RuleFrom(known, x).value;
            && Cfg(n, "channels").Some? && IsStrings(Cfg(n, "channels").value)
            && Some(row.path) == Cfg(n, "rule_path") && Some(row.title) == Cfg(n, "label")
            && Some(row.params) == Cfg(n, "params") && Some(row.priority) == Cfg(n, "priority")
            && row.enabled == Or(Get(n, "enabled"), Bool(true))
            && (forall c :: c in row.channels <==> Str(c) in Cfg(n, "channels").value.items)
            && row.channels <= known
  {
    var channels := Cfg(Some(Obj(x.fields)), "channels").value;
    StringsExactly(channels);
  }

  lemma StringsExactly(j: Json)
    requires IsStrings(j)
    ensures forall c :: c in StringsOf(j) <==> Str(c) in j.items
  {
    forall c | Str(c) in j.items ensures c in StringsOf(j) {
      var i :| 0 <= i < |j.items| && j.items[i] == Str(c);
      assert StringsOf(j)[i] == c;
    }
    forall c | c in StringsOf(j) ensures Str(c) in j.items {
      var i :| 0 <= i < |j.items| && StringsOf(j)[i] == c;
      assert j.items[i] == Str(c);
    }
  }

  // ---- What is declared is there ----

  /** In a settled tree what is declared is there, but for the operator's part. */
  lemma {:induction false} SettledHolds(policy: Policy, section: string, d: Json, v: Json, rel: seq<string>,
                                        path: seq<string>)
    requires policy != Keep && Settled(policy, section, d, v, rel) && Open(section, rel, path)
    requires Lookup(Some(d), path).Some?
    ensures Agree(Lookup(Some(v), path), Lookup(Some(d), path))
    decreases d
  {
    if d.Obj? && v.Obj? {
      if path != [] {
        LookupNone(path[1..]);
        SettledHolds(policy, section, d.fields[path[0]], v.fields[path[0]], rel + [path[0]], path[1..]);
      }
    } else {
      SameNodeLookup(Some(v), Some(d), path);
    }
  }

  /** A successful apply under refuse or overwrite delivers: every declared cell of a channel reads as declared. */
  lemma ChannelsDelivered(db: Database, d: Descriptor, actor: string, policy: Policy, slug: string -> string, x: Item,
                          path: seq<string>)
    requires Apply(db, d, actor, policy, false, slug).1.Ok? && policy != Keep
    requires x in Keyed(d.channels) && CanonicalChannel(policy, x)
    requires Open("channels", [], path) && Lookup(Some(Obj(x.fields)), path).Some?
    ensures var after := Apply(db, d, actor, policy, false, slug).0;
            && x.ref in after.channels
            && Agree(Lookup(Some(ChannelBody(after.channels[x.ref])), path), Lookup(Some(Obj(x.fields)), path))
  {
    var after := Apply(db, d, actor, policy, false, slug).0;
    ApplyIsApplied(db, d, actor, policy, slug);
    PlanLogs(db, d, policy, slug);
    KeyedIsTable(d.channels);
    ChannelsDone(policy, Keyed(d.channels), db.channels, LastBase(db, d, Channels), x);
    assert ChannelDone(policy, x, after.channels);
    SettledHolds(policy, "channels", Obj(x.fields), ChannelBody(after.channels[x.ref]), [], path);
  }

  /** And of a rule. */
  lemma RulesDelivered(db: Database, d: Descriptor, actor: string, policy: Policy, slug: string -> string, x: Item,
                       path: seq<string>)
    requires Apply(db, d, actor, policy, false, slug).1.Ok? && policy != Keep
    requires x in Keyed(d.rules) && CanonicalRule(policy, x)
    requires Open("rule_configs", [], path) && Lookup(Some(Obj(x.fields)), path).Some?
    ensures var after := Apply(db, d, actor, policy, false, slug).0;
            && x.ref in after.rules
            && Agree(Lookup(Some(RuleBody(after.rules[x.ref])), path), Lookup(Some(Obj(x.fields)), path))
  {
    var after := Apply(db, d, actor, policy, false, slug).0;
    ApplyIsApplied(db, d, actor, policy, slug);
    PlanLogs(db, d, policy, slug);
    KeyedIsTable(d.rules);
    RulesDone(policy, after.channels.Keys, Keyed(d.rules), db.rules, LastBase(db, d, Rules), x);
    assert RuleDone(policy, after.channels.Keys, x, after.rules);
    SettledHolds(policy, "rule_configs", Obj(x.fields), RuleBody(after.rules[x.ref]), [], path);
  }

  /** And of a persona: its group holds exactly the declared permissions. */
  lemma PersonasDelivered(db: Database, d: Descriptor, actor: string, policy: Policy, slug: string -> string, x: Item)
    requires Apply(db, d, actor, policy, false, slug).1.Ok? && policy != Keep
    requires NoRename(db.groups, SectionTarget(db, d, policy, slug, Personas), slug)
    requires x in Keyed(d.personas) && CanonicalPersona(policy, x) && x.fields.Keys == {"name", "permissions"}
    ensures var after := Apply(db, d, actor, policy, false, slug).0;
            && x.fields["name"].Str? && x.fields["name"].s in after.groups
            && forall c :: c in after.groups[x.fields["name"].s] <==> Str(c) in x.fields["permissions"].items
  {
    var after := Apply(db, d, actor, policy, false, slug).0;
    ApplyIsApplied(db, d, actor, policy, slug);
    PlanLogs(db, d, policy, slug);
    RenamesBreakRefs(db, d, policy, slug, after);
    AppliedPersona(db, d, policy, slug, after, x);
    PersonaHolds(policy, db.permissions, x, after.groups, slug);
  }

  lemma AppliedPersona(db: Database, d: Descriptor, policy: Policy, slug: string -> string, after: Database, x: Item)
    requires x in Keyed(d.personas) && CanonicalPersona(policy, x)
    requires SlugsUnique(db.groups, slug) && SlugsUnique(after.groups, slug)
    requires ConflictFree(SectionChanges(db, d, policy, slug, Personas))
    requires WritePersonas(db.permissions, db.groups, SectionTarget(db, d, policy, slug, Personas), slug)
             == Ok(after.groups)
    ensures PersonaDone(policy, db.permissions, x, after.groups, slug)
  {
    var base := LastBase(db, d, Personas);
    KeyedIsTable(d.personas);
    PlannedPersona(policy, db.permissions, Keyed(d.personas), db.groups, base, slug, x, after.groups);
  }

  lemma PlannedPersona(policy: Policy, known: set<string>, items: seq<Item>, groups: map<string, set<string>>,
                       base: map<string, Json>, slug: string -> string, x: Item, after: map<string, set<string>>)
    requires UniqueRefs(items) && x in items && CanonicalPersona(policy, x)
    requires SlugsUnique(groups, slug) && SlugsUnique(after, slug)
    requires ConflictFree(SectionLog(policy, "rbac_personas", items, ProjectPersonas(groups, slug), base))
    requires WritePersonas(known, groups, PlannedItems(policy, "rbac_personas", items, ProjectPersonas(groups, slug),
                                                       base), slug) == Ok(after)
    ensures PersonaDone(policy, known, x, after, slug)
  {
    PersonasDone(policy, known, items, groups, base, slug, x);
  }

  lemma PersonaHolds(policy: Policy, known: set<string>, x: Item, groups: map<string, set<string>>,
                     slug: string -> string)
    requires policy != Keep && CanonicalPersona(policy, x) && x.fields.Keys == {"name", "permissions"}
    requires PersonaDone(policy, known, x, groups, slug)
    ensures x.fields["name"].Str? && x.fields["name"].s in groups
    ensures forall c :: c in groups[x.fields["name"].s] <==> Str(c) in x.fields["permissions"].items
  {
    var g := GroupOf(groups, slug, x.ref).value;
    var body := PersonaBody(g.0, g.1);
    assert Settled(policy, "rbac_personas", x.fields["name"], body.fields["name"], [] + ["name"]);
    assert Settled(policy, "rbac_personas", x.fields["permissions"], body.fields["permissions"], [] + ["permissions"]);
    assert PyEq(x.fields["name"], body.fields["name"]);
    assert PyEq(x.fields["permissions"], body.fields["permissions"]);
    PyEqStrings(x.fields["permissions"], body.fields["permissions"]);
    StringsExactly(body.fields["permissions"]);
    ListedSet(g.1);
  }
}
