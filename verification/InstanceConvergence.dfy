/** When applying a descriptor twice is applying it once. */
module InstanceConvergence {
  import opened Texts
  import opened JsonValues
  import opened Planner
  import opened PlanLog
  import opened PlanGuarantees
  import opened InstanceModel
  import opened InstanceRows
  import opened InstanceItems
  import opened InstanceApply

  /** Mappings where the projection emits mappings, and only fields it emits where a row is written as a whole. */
  ghost predicate Shaped(d: Descriptor) {
    && (forall x :: x in Keyed(d.channels) ==> ShapedChannel(x))
    && (forall x :: x in Keyed(d.rules) ==> ShapedRule(x))
    && (forall x :: x in Keyed(d.personas) ==> ShapedPersona(x))
  }

  /**
   What is declared is stored and listed as it is declared: channels have no other fields, and the lists that are
   stored as sets are sorted, each string once.
   */
  ghost predicate ReadsBack(d: Descriptor) {
    && (forall x :: x in Keyed(d.channels) ==> ChannelFieldsKnown(x))
    && (forall x :: x in Keyed(d.rules) ==> RuleListSorted(x))
    && (forall x :: x in Keyed(d.personas) ==> PersonaListSorted(x))
  }

  ghost predicate Canonical(policy: Policy, d: Descriptor) {
    Shaped(d) && (policy == Keep || ReadsBack(d))
  }

  /** `after` is what a successful apply of `d` leaves of `db`: every part of it. */
  ghost predicate Applied(db: Database, d: Descriptor, actor: string, policy: Policy, slug: string -> string,
                          after: Database) {
    && |db.shops| <= 1 && SlugsUnique(db.groups, slug) && !DeclaresState(d)
    && ConflictFree(PlanOf(db, d, policy, slug).changes)
    && after.shops == WriteShop(db.shops, PlannedName(db, d, policy))
    && WriteChannels(db.channels, SectionTarget(db, d, policy, slug, Channels)) == Ok(after.channels)
    && WriteRules(after.channels.Keys, db.rules, SectionTarget(db, d, policy, slug, Rules)) == Ok(after.rules)
    && WritePersonas(db.permissions, db.groups, SectionTarget(db, d, policy, slug, Personas), slug) == Ok(after.groups)
    && after.permissions == db.permissions
    && after.trail == Recorded(db, d, PlanOf(db, d, policy, slug).changes, policy, actor)
  }

  lemma ApplyIsApplied(db: Database, d: Descriptor, actor: string, policy: Policy, slug: string -> string)
    requires Apply(db, d, actor, policy, false, slug).1.Ok?
    ensures Applied(db, d, actor, policy, slug, Apply(db, d, actor, policy, false, slug).0)
    ensures Apply(db, d, actor, policy, false, slug).1.value == PlanOf(db, d, policy, slug).changes
  {
    var plan := PlanOf(db, d, policy, slug);
    ApplySteps(db, d, actor, policy, slug);
    WriteSteps(db, plan, slug);
    PlanParts(db, d, policy, slug);
  }

  lemma ApplySteps(db: Database, d: Descriptor, actor: string, policy: Policy, slug: string -> string)
    requires Apply(db, d, actor, policy, false, slug).1.Ok?
    ensures Refusal(db, d, actor, slug).None?
    ensures var plan := PlanOf(db, d, policy, slug);
            && ConflictFree(plan.changes) && WritePlan(db, plan, slug).Ok?
            && Apply(db, d, actor, policy, false, slug) ==
               (WritePlan(db, plan, slug).value.(trail := Recorded(db, d, plan.changes, policy, actor)),
                Ok(plan.changes))
  {
    CarrySteps(db, d, PlanOf(db, d, policy, slug), actor, policy, slug);
  }

  /** A plan is carried out exactly when it has no conflict and every write succeeds. */
  lemma CarrySteps(db: Database, d: Descriptor, plan: Plan, actor: string, policy: Policy, slug: string -> string)
    requires |db.shops| <= 1
    ensures var call := Carry(db, d, plan, actor, policy, false, slug);
            && (call.1.Ok? <==> ConflictFree(plan.changes) && WritePlan(db, plan, slug).Ok?)
            && (call.1.Ok? ==> call == (WritePlan(db, plan, slug).value.(trail := Recorded(db, d, plan.changes,
                                                                                           policy, actor)),
                                        Ok(plan.changes)))
  {
    ConflictsAreLogged(plan.changes);
  }

  lemma WriteSteps(db: Database, plan: Plan, slug: string -> string)
    requires |db.shops| <= 1 && WritePlan(db, plan, slug).Ok?
    ensures var after := WritePlan(db, plan, slug).value;
            && after.shops == WriteShop(db.shops, plan.displayName)
            && WriteChannels(db.channels, plan.channels) == Ok(after.channels)
            && WriteRules(after.channels.Keys, db.rules, plan.rules) == Ok(after.rules)
            && WritePersonas(db.permissions, db.groups, plan.personas, slug) == Ok(after.groups)
            && after.permissions == db.permissions
  {
  }

  lemma PlanParts(db: Database, d: Descriptor, policy: Policy, slug: string -> string)
    ensures PlanOf(db, d, policy, slug).displayName == PlannedName(db, d, policy)
    ensures PlanOf(db, d, policy, slug).channels == SectionTarget(db, d, policy, slug, Channels)
    ensures PlanOf(db, d, policy, slug).rules == SectionTarget(db, d, policy, slug, Rules)
    ensures PlanOf(db, d, policy, slug).personas == SectionTarget(db, d, policy, slug, Personas)
  {
  }

  lemma PlanLogs(db: Database, d: Descriptor, policy: Policy, slug: string -> string)
    ensures ConflictFree(PlanOf(db, d, policy, slug).changes) ==
            (&& ConflictFree(NameLog(db, d, policy)) && ConflictFree(SectionChanges(db, d, policy, slug, Channels))
             && ConflictFree(SectionChanges(db, d, policy, slug, Rules))
             && ConflictFree(SectionChanges(db, d, policy, slug, Personas)))
    ensures HasWrite(PlanOf(db, d, policy, slug).changes) ==
            (|| HasWrite(NameLog(db, d, policy)) || HasWrite(SectionChanges(db, d, policy, slug, Channels))
             || HasWrite(SectionChanges(db, d, policy, slug, Rules))
             || HasWrite(SectionChanges(db, d, policy, slug, Personas)))
  {
    var n := NameLog(db, d, policy);
    var c, r, p := SectionChanges(db, d, policy, slug, Channels), SectionChanges(db, d, policy, slug, Rules),
                   SectionChanges(db, d, policy, slug, Personas);
  }

  /**
   The trail of a successful apply: one record, of exactly this call, when its log has a writing entry or the
   descriptor is not the one applied last; none when nothing is written and the descriptor is the same.
   */
  lemma TrailRecords(db: Database, d: Descriptor, actor: string, policy: Policy, slug: string -> string)
    requires Apply(db, d, actor, policy, false, slug).1.Ok?
    ensures var call := Apply(db, d, actor, policy, false, slug);
            RecordedRightly(db, d, call.1.value, policy, actor, call.0.trail)
  {
    ApplyIsApplied(db, d, actor, policy, slug);
    RecordsWrites(db, d, PlanOf(db, d, policy, slug).changes, policy, actor);
  }

  ghost predicate RecordedRightly(db: Database, d: Descriptor, log: seq<Change>, policy: Policy, actor: string,
                                  trail: seq<Record>)
  {
    trail == if HasWrite(log) || LastApplied(db.trail, d.instanceRef) != Some(d)
             then db.trail + [Record(d, log, policy, actor)] else db.trail
  }

  lemma RecordsWrites(db: Database, d: Descriptor, log: seq<Change>, policy: Policy, actor: string)
    ensures RecordedRightly(db, d, log, policy, actor, Recorded(db, d, log, policy, actor))
  {
    if c :| c in log && c.action in WRITING_ACTIONS {
      var i :| 0 <= i < |log| && log[i] == c;
      assert Wrote(log);
    }
  }

  // ---- The shop ----

  lemma NameDone(db: Database, d: Descriptor, policy: Policy, after: Database)
    requires |db.shops| <= 1 && ConflictFree(NameLog(db, d, policy))
    requires after.shops == WriteShop(db.shops, PlannedName(db, d, policy))
    requires LastApplied(after.trail, d.instanceRef) == Some(d)
    ensures ConflictFree(NameLog(after, d, policy)) && !HasWrite(NameLog(after, d, policy))
    ensures WriteShop(after.shops, PlannedName(after, d, policy)) == after.shops
  {
    var rel, parts := ["display_name"], ["instance", "display_name"];
    var stored := after.shops[0];
    if db.shops == [] {
      SettledSelf(policy, "instance", d.displayName, rel);
    } else {
      var b := BaseName(LastApplied(db.trail, d.instanceRef));
      var m := MergeNode(policy, "instance", d.displayName, db.shops[0], b, rel);
      MergeSettles(policy, "instance", d.displayName, db.shops[0], b, parts, rel);
      if PyEq(db.shops[0], m) { MergedExact(policy, "instance", d.displayName, db.shops[0], b, rel); }
      assert stored == m;
    }
    SettledQuiet(policy, "instance", d.displayName, stored, parts, rel);
    SettledWritesNothing(policy, "instance", d.displayName, stored, parts, rel);
  }

  // ---- The theorem ----

  /** A call that reports no writing action and leaves everything, the trail included, as it was. */
  predicate Quiet(before: Database, call: (Database, Result<seq<Change>, Error>)) {
    call.1.Ok? && !Wrote(call.1.value) && call.0 == before
  }

  lemma SecondApplyQuiet(db: Database, d: Descriptor, actor: string, again: string, policy: Policy,
                         slug: string -> string,
                         after: Database)
    requires Canonical(policy, d) && !Blank(again)
    requires Applied(db, d, actor, policy, slug, after) && SlugsUnique(after.groups, slug)
    ensures Quiet(after, Apply(after, d, again, policy, false, slug))
  {
    PlanLogs(db, d, policy, slug);
    NameDone(db, d, policy, after);
    ChannelsAgain(db, d, policy, slug, after);
    RulesAgain(db, d, policy, slug, after);
    PersonasAgain(db, d, policy, slug, after);
    SecondPlanQuiet(after, d, policy, slug);
    QuietCarry(after, d, PlanOf(after, d, policy, slug), again, policy, slug);
  }

  lemma SecondPlanQuiet(after: Database, d: Descriptor, policy: Policy, slug: string -> string)
    requires |after.shops| <= 1 && SlugsUnique(after.groups, slug)
    requires ConflictFree(NameLog(after, d, policy)) && !HasWrite(NameLog(after, d, policy))
    requires SectionQuiet(after, d, policy, slug, Channels) && SectionQuiet(after, d, policy, slug, Rules)
             && SectionQuiet(after, d, policy, slug, Personas)
    requires WriteShop(after.shops, PlannedName(after, d, policy)) == after.shops
    requires WriteChannels(after.channels, SectionTarget(after, d, policy, slug, Channels)) == Ok(after.channels)
    requires WriteRules(after.channels.Keys, after.rules, SectionTarget(after, d, policy, slug, Rules))
             == Ok(after.rules)
    requires WritePersonas(after.permissions, after.groups, SectionTarget(after, d, policy, slug, Personas), slug)
             == Ok(after.groups)
    ensures ConflictFree(PlanOf(after, d, policy, slug).changes) && !HasWrite(PlanOf(after, d, policy, slug).changes)
    ensures WritePlan(after, PlanOf(after, d, policy, slug), slug) == Ok(after)
  {
    PlanLogs(after, d, policy, slug);
  }

  /** A plan without conflicts and writes that would leave the database as it is. */
  lemma QuietCarry(after: Database, d: Descriptor, plan: Plan, again: string, policy: Policy, slug: string -> string)
    requires |after.shops| <= 1 && ConflictFree(plan.changes) && !HasWrite(plan.changes)
    requires WritePlan(after, plan, slug) == Ok(after) && LastApplied(after.trail, d.instanceRef) == Some(d)
    ensures Quiet(after, Carry(after, d, plan, again, policy, false, slug))
  {
    CarrySteps(after, d, plan, again, policy, slug);
  }

  ghost predicate SectionQuiet(after: Database, d: Descriptor, policy: Policy, slug: string -> string, s: Section) {
    ConflictFree(SectionChanges(after, d, policy, slug, s)) && !HasWrite(SectionChanges(after, d, policy, slug, s))
  }

  lemma ChannelsAgain(db: Database, d: Descriptor, policy: Policy, slug: string -> string, after: Database)
    requires Canonical(policy, d) && SlugsUnique(db.groups, slug) && SlugsUnique(after.groups, slug)
    requires ConflictFree(SectionChanges(db, d, policy, slug, Channels))
    requires WriteChannels(db.channels, SectionTarget(db, d, policy, slug, Channels)) == Ok(after.channels)
    requires LastApplied(after.trail, d.instanceRef) == Some(d)
    ensures SectionQuiet(after, d, policy, slug, Channels)
    ensures WriteChannels(after.channels, SectionTarget(after, d, policy, slug, Channels)) == Ok(after.channels)
  {
    assert BaseTable(LastApplied(after.trail, d.instanceRef), Channels) == Table(d.channels);
    assert SectionTarget(after, d, policy, slug, Channels) ==
           PlannedItems(policy, "channels", Keyed(d.channels), ProjectChannels(after.channels), Table(d.channels));
    KeyedIsTable(d.channels);
    ChannelsTwice(policy, Keyed(d.channels), db.channels, BaseTable(LastApplied(db.trail, d.instanceRef), Channels),
                  after.channels, Table(d.channels));
  }

  lemma RulesAgain(db: Database, d: Descriptor, policy: Policy, slug: string -> string, after: Database)
    requires Canonical(policy, d) && SlugsUnique(db.groups, slug) && SlugsUnique(after.groups, slug)
    requires ConflictFree(SectionChanges(db, d, policy, slug, Rules))
    requires WriteRules(after.channels.Keys, db.rules, SectionTarget(db, d, policy, slug, Rules)) == Ok(after.rules)
    requires LastApplied(after.trail, d.instanceRef) == Some(d)
    ensures SectionQuiet(after, d, policy, slug, Rules)
    ensures WriteRules(after.channels.Keys, after.rules, SectionTarget(after, d, policy, slug, Rules))
            == Ok(after.rules)
  {
    assert BaseTable(LastApplied(after.trail, d.instanceRef), Rules) == Table(d.rules);
    assert SectionTarget(after, d, policy, slug, Rules) ==
           PlannedItems(policy, "rule_configs", Keyed(d.rules), ProjectRules(after.rules), Table(d.rules));
    KeyedIsTable(d.rules);
    RulesTwice(policy, after.channels.Keys, Keyed(d.rules), db.rules,
               BaseTable(LastApplied(db.trail, d.instanceRef), Rules),
               after.rules, Table(d.rules));
  }

  lemma PersonasAgain(db: Database, d: Descriptor, policy: Policy, slug: string -> string, after: Database)
    requires Canonical(policy, d) && SlugsUnique(db.groups, slug) && SlugsUnique(after.groups, slug)
    requires ConflictFree(SectionChanges(db, d, policy, slug, Personas))
    requires WritePersonas(after.permissions, db.groups, SectionTarget(db, d, policy, slug, Personas), slug)
             == Ok(after.groups)
    requires LastApplied(after.trail, d.instanceRef) == Some(d)
    ensures SectionQuiet(after, d, policy, slug, Personas)
    ensures WritePersonas(after.permissions, after.groups, SectionTarget(after, d, policy, slug, Personas), slug)
            == Ok(after.groups)
  {
    assert BaseTable(LastApplied(after.trail, d.instanceRef), Personas) == Table(d.personas);
    assert SectionTarget(after, d, policy, slug, Personas) ==
           PlannedItems(policy, "rbac_personas", Keyed(d.personas), ProjectPersonas(after.groups, slug),
                        Table(d.personas));
    KeyedIsTable(d.personas);
    PersonasTwice(policy, after.permissions, Keyed(d.personas), slug, db.groups,
                  BaseTable(LastApplied(db.trail, d.instanceRef), Personas), after.groups, Table(d.personas));
  }

  /**
   Convergence: after a successful apply of a shaped descriptor under any policy, applying it again plans no
   write, changes nothing and records nothing, if and only if the first apply did not give a group a new name
   under its old ref, and what is declared reads back as declared or the operator's side is kept.
   */
  lemma ApplyConverges(db: Database, d: Descriptor, actor: string, again: string, policy: Policy,
                       slug: string -> string)
    requires Shaped(d) && !Blank(again)
    requires Apply(db, d, actor, policy, false, slug).1.Ok?
    ensures SlugsUnique(db.groups, slug)
    ensures var after := Apply(db, d, actor, policy, false, slug).0;
            Quiet(after, Apply(after, d, again, policy, false, slug)) ==
            (NoRename(db.groups, SectionTarget(db, d, policy, slug, Personas), slug)
             && (policy == Keep || ReadsBack(d)))
  {
    var after := Apply(db, d, actor, policy, false, slug).0;
    ApplyIsApplied(db, d, actor, policy, slug);
    RenamesBreakRefs(db, d, policy, slug, after);
    if !SlugsUnique(after.groups, slug) {
      DuplicatesRefuse(after, d, again, policy, slug);
    } else if Canonical(policy, d) {
      SecondApplyQuiet(db, d, actor, again, policy, slug, after);
    } else {
      UnreadNotQuiet(db, d, actor, policy, slug, after);
      NotQuiet(after, d, again, policy, slug);
    }
  }

  /** Under refuse the second apply of such a descriptor is a conflict, whatever was stored before. */
  lemma UnreadIsRefused(db: Database, d: Descriptor, actor: string, again: string, slug: string -> string)
    requires Shaped(d) && !ReadsBack(d)
    requires Apply(db, d, actor, Refuse, false, slug).1.Ok?
    ensures Apply(Apply(db, d, actor, Refuse, false, slug).0, d, again, Refuse, false, slug).1.Err?
  {
    var after := Apply(db, d, actor, Refuse, false, slug).0;
    ApplyIsApplied(db, d, actor, Refuse, slug);
    if !SlugsUnique(after.groups, slug) {
      DuplicatesRefuse(after, d, again, Refuse, slug);
    } else {
      UnreadNotQuiet(db, d, actor, Refuse, slug, after);
      var s :| !ConflictFree(SectionChanges(after, d, Refuse, slug, s));
      ConflictStops(after, d, again, Refuse, slug, s);
    }
  }

  lemma ConflictStops(db: Database, d: Descriptor, actor: string, policy: Policy, slug: string -> string, s: Section)
    requires !ConflictFree(SectionChanges(db, d, policy, slug, s))
    ensures Apply(db, d, actor, policy, false, slug).1.Err?
  {
    PlanLogs(db, d, policy, slug);
    if Apply(db, d, actor, policy, false, slug).1.Ok? { ApplySteps(db, d, actor, policy, slug); }
  }

  /** A section that is not quiet is reported, refused or written. */
  lemma NotQuiet(after: Database, d: Descriptor, again: string, policy: Policy, slug: string -> string)
    requires exists s :: !SectionQuiet(after, d, policy, slug, s)
    ensures !Quiet(after, Apply(after, d, again, policy, false, slug))
  {
    var plan := PlanOf(after, d, policy, slug);
    var s :| !SectionQuiet(after, d, policy, slug, s);
    PlanLogs(after, d, policy, slug);
    if Apply(after, d, again, policy, false, slug).1.Ok? {
      ApplySteps(after, d, again, policy, slug);
      assert HasWrite(plan.changes);
    }
  }

  /** Something that does not read back: the second plan holds a conflict or a write. */
  lemma UnreadNotQuiet(db: Database, d: Descriptor, actor: string, policy: Policy, slug: string -> string,
                         after: Database)
    requires Shaped(d) && !ReadsBack(d) && policy != Keep && SlugsUnique(after.groups, slug)
    requires Applied(db, d, actor, policy, slug, after)
    ensures exists s :: !SectionQuiet(after, d, policy, slug, s)
    ensures policy == Refuse ==> exists s :: !ConflictFree(SectionChanges(after, d, policy, slug, s))
  {
    PlanLogs(db, d, policy, slug);
    if x :| x in Keyed(d.channels) && !ChannelFieldsKnown(x) {
      UnknownFieldLogged(db, d, policy, slug, after, x);
    } else if x :| x in Keyed(d.rules) && !RuleListSorted(x) {
      UnsortedRuleLogged(db, d, policy, slug, after, x);
    } else {
      var y :| y in Keyed(d.personas) && !PersonaListSorted(y);
      UnsortedPersonaLogged(db, d, policy, slug, after, y);
    }
  }

  lemma UnknownFieldLogged(db: Database, d: Descriptor, policy: Policy, slug: string -> string, after: Database,
                           x: Item)
    requires x in Keyed(d.channels) && ShapedChannel(x) && !ChannelFieldsKnown(x) && policy != Keep
    requires ConflictFree(SectionChanges(db, d, policy, slug, Channels))
    requires WriteChannels(db.channels, SectionTarget(db, d, policy, slug, Channels)) == Ok(after.channels)
    requires LastApplied(after.trail, d.instanceRef) == Some(d)
    ensures !SectionQuiet(after, d, policy, slug, Channels)
    ensures policy == Refuse ==> !ConflictFree(SectionChanges(after, d, policy, slug, Channels))
  {
    var items, table, base := Keyed(d.channels), ProjectChannels(db.channels),
                              BaseTable(LastApplied(db.trail, d.instanceRef), Channels);
    var next := BaseTable(LastApplied(after.trail, d.instanceRef), Channels);
    KeyedIsTable(d.channels);
    PlannedUnique(policy, "channels", items, table, base);
    PlannedOf(policy, "channels", items, table, base, x);
    ChannelsWritten(db.channels, PlannedItems(policy, "channels", items, table, base),
                    PlannedItem(policy, "channels", x, At(table, x.ref), At(base, x.ref)));
    UnknownFieldUnsettled(policy, x, after.channels[x.ref]);
    UnsettledSection(policy, "channels", items, ProjectChannels(after.channels), next, x);
  }

  lemma UnsortedRuleLogged(db: Database, d: Descriptor, policy: Policy, slug: string -> string, after: Database,
                           x: Item)
    requires x in Keyed(d.rules) && ShapedRule(x) && !RuleListSorted(x) && policy != Keep
    requires ConflictFree(SectionChanges(db, d, policy, slug, Rules))
    requires WriteRules(after.channels.Keys, db.rules, SectionTarget(db, d, policy, slug, Rules)) == Ok(after.rules)
    requires LastApplied(after.trail, d.instanceRef) == Some(d)
    ensures !SectionQuiet(after, d, policy, slug, Rules)
    ensures policy == Refuse ==> !ConflictFree(SectionChanges(after, d, policy, slug, Rules))
  {
    var base, next := BaseTable(LastApplied(db.trail, d.instanceRef), Rules),
                      BaseTable(LastApplied(after.trail, d.instanceRef), Rules);
    KeyedIsTable(d.rules);
    UnsortedRule(policy, after.channels.Keys, Keyed(d.rules), db.rules, base, x, after.rules);
    UnsettledSection(policy, "rule_configs", Keyed(d.rules), ProjectRules(after.rules), next, x);
  }

  lemma UnsortedPersonaLogged(db: Database, d: Descriptor, policy: Policy, slug: string -> string, after: Database,
                              x: Item)
    requires x in Keyed(d.personas) && !PersonaListSorted(x) && policy != Keep
    requires SlugsUnique(db.groups, slug) && SlugsUnique(after.groups, slug)
    requires ConflictFree(SectionChanges(db, d, policy, slug, Personas))
    requires WritePersonas(db.permissions, db.groups, SectionTarget(db, d, policy, slug, Personas), slug)
             == Ok(after.groups)
    requires LastApplied(after.trail, d.instanceRef) == Some(d)
    ensures !SectionQuiet(after, d, policy, slug, Personas)
    ensures policy == Refuse ==> !ConflictFree(SectionChanges(after, d, policy, slug, Personas))
  {
    var base, next := BaseTable(LastApplied(db.trail, d.instanceRef), Personas),
                      BaseTable(LastApplied(after.trail, d.instanceRef), Personas);
    KeyedIsTable(d.personas);
    UnsortedPersona(policy, db.permissions, Keyed(d.personas), db.groups, base, slug, x, after.groups);
    GroupProjected(after.groups, slug, x.ref);
    assert x.ref in ProjectPersonas(after.groups, slug);
    UnsettledSection(policy, "rbac_personas", Keyed(d.personas), ProjectPersonas(after.groups, slug), next, x);
  }

  lemma RenamesBreakRefs(db: Database, d: Descriptor, policy: Policy, slug: string -> string, after: Database)
    requires SlugsUnique(db.groups, slug)
    requires WritePersonas(db.permissions, db.groups, SectionTarget(db, d, policy, slug, Personas), slug)
             == Ok(after.groups)
    ensures SlugsUnique(after.groups, slug) <==> NoRename(db.groups, SectionTarget(db, d, policy, slug, Personas), slug)
  {
    TargetUnique(db, d, policy, slug, Personas);
    SlugsAfterWrite(db.permissions, db.groups, SectionTarget(db, d, policy, slug, Personas), slug);
  }

  lemma TargetUnique(db: Database, d: Descriptor, policy: Policy, slug: string -> string, s: Section)
    ensures UniqueRefs(SectionTarget(db, d, policy, slug, s))
  {
    KeyedIsTable(Declared(d, s));
    PlannedUnique(policy, s.Name(), Keyed(Declared(d, s)), Projected(db, s, slug),
                  BaseTable(LastApplied(db.trail, d.instanceRef), s));
  }

  lemma DuplicatesRefuse(db: Database, d: Descriptor, actor: string, policy: Policy, slug: string -> string)
    requires !SlugsUnique(db.groups, slug)
    ensures Apply(db, d, actor, policy, false, slug).1.Err?
  {
    assert Refusal(db, d, actor, slug).Some?;
  }
}
