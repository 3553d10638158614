/** Channels, rules and personas, one item at a time: plan, write, project, and plan again. */
module InstanceItems {
  import opened Texts
  import opened JsonValues
  import opened Planner
  import opened PlanLog
  import opened PlanGuarantees
  import opened InstanceModel
  import opened InstanceRows

  // ---- Channels ----

  const CHANNEL_FIELDS := {"name", "commerce_policy", "display_order", "overrides"}

  /** Mappings where the projection emits mappings. */
  predicate ShapedChannel(x: Item) {
    "config" in x.fields ==>
      && x.fields["config"].Obj?
      && ("overrides" in x.fields["config"].fields ==> x.fields["config"].fields["overrides"].Obj?)
  }

  /** Only fields that are stored and read back; any other is dropped when the channel is written. */
  predicate ChannelFieldsKnown(x: Item) {
    && x.fields.Keys <= {"enabled", "config"}
    && ("config" in x.fields && x.fields["config"].Obj? ==> x.fields["config"].fields.Keys <= CHANNEL_FIELDS)
  }

  predicate CanonicalChannel(policy: Policy, x: Item) {
    ShapedChannel(x) && (policy == Keep || ChannelFieldsKnown(x))
  }

  function ChannelNode(row: Option<ChannelRow>): Node {
    match row case Some(r) => Some(ChannelBody(r)) case None => None
  }

  function ChannelAfter(row: Option<ChannelRow>, t: Item): ChannelRow
    requires ChannelFrom(t).Some?
  {
    if row.Some? then UpdateChannel(row.value, ChannelFrom(t).value) else ChannelFrom(t).value
  }

  lemma ChannelCells(row: ChannelRow)
    ensures IsConfigItem(ChannelBody(row), CHANNEL_FIELDS)
    ensures var n := Some(ChannelBody(row));
            && Get(n, "enabled") == Some(row.active)
            && Cfg(n, "name") == Some(row.name) && Cfg(n, "commerce_policy") == Some(row.commercePolicy)
            && Cfg(n, "display_order") == Some(row.displayOrder) && Cfg(n, "overrides") == Some(OrEmpty(row.overrides))
  {
  }

  /** A target whose cells, written over the row, are stored as they are. */
  ghost predicate StoredAsMerged(row: ChannelRow, t: Item) {
    var v, m := Some(ChannelBody(row)), Some(Obj(t.fields));
    && Get(m, "enabled") == Get(v, "enabled")
    && (forall k :: k in CHANNEL_FIELDS && k != "overrides" && Cfg(v, k).Some? && Cfg(m, k).Some? ==>
          Column(Cfg(v, k).value, Cfg(m, k).value) == Cfg(m, k).value)
    && (Cfg(m, "overrides").Some? ==>
          OrEmpty(Column(row.overrides, Cfg(m, "overrides").value)) == OrEmpty(Cfg(m, "overrides").value))
  }

  lemma MergedChannelStored(policy: Policy, x: Item, row: ChannelRow, b: Node)
    ensures StoredAsMerged(row, PlannedItem(policy, "channels", x, Some(ChannelBody(row)), b))
  {
    var d, v := Obj(x.fields), ChannelBody(row);
    var m := MergeNode(policy, "channels", d, v, b, []);
    assert [] + ["enabled"] == ["enabled"] && IsOperational("channels", ["enabled"]);
    MergedGet(policy, "channels", d, v, b, [], "enabled");
    forall k | k in CHANNEL_FIELDS && k != "overrides" && Cfg(Some(v), k).Some? && Cfg(Some(m), k).Some?
      ensures Column(Cfg(Some(v), k).value, Cfg(Some(m), k).value) == Cfg(Some(m), k).value
    {
      LookupTwo(Some(v), ["config", k]);
      LookupTwo(Some(m), ["config", k]);
      ColumnHoldsMerged(policy, "channels", d, v, b, ["config", k], Cfg(Some(v), k).value);
    }
    if Cfg(Some(m), "overrides").Some? {
      LookupTwo(Some(v), ["config", "overrides"]);
      LookupTwo(Some(m), ["config", "overrides"]);
      ChannelCells(row);
      MappingColumnHoldsMerged(policy, "channels", d, v, b, ["config", "overrides"], row.overrides);
    }
  }

  /** What a written channel reads back as, cell by cell. */
  lemma ChannelReread(row: ChannelRow, t: Item)
    requires ChannelFrom(t).Some? && StoredAsMerged(row, t)
    ensures var v, m, after := Some(ChannelBody(row)), Some(Obj(t.fields)),
            Some(ChannelBody(ChannelAfter(Some(row), t)));
            && Get(after, "enabled") == Get(v, "enabled")
            && (forall k :: k in CHANNEL_FIELDS ==> Reread(Cfg(v, k), Cfg(m, k), Cfg(after, k)))
            && (forall k :: k in CHANNEL_FIELDS && Cfg(m, k).Some? ==>
                  Cfg(after, k) == Some(if k == "overrides" then OrEmpty(Cfg(m, k).value) else Cfg(m, k).value))
  {
    ChannelCells(row);
    ChannelCells(ChannelAfter(Some(row), t));
    forall k | k in CHANNEL_FIELDS && Cfg(Some(Obj(t.fields)), k).Some?
      ensures Cfg(Some(ChannelBody(ChannelAfter(Some(row), t))), k)
           == Some(if k == "overrides" then OrEmpty(Cfg(Some(Obj(t.fields)), k).value)
                   else Cfg(Some(Obj(t.fields)), k).value)
    {
    }
    forall k | k in CHANNEL_FIELDS
      ensures Reread(Cfg(Some(ChannelBody(row)), k), Cfg(Some(Obj(t.fields)), k),
                     Cfg(Some(ChannelBody(ChannelAfter(Some(row), t))), k))
    {
      if k == "overrides" { OrEmptyTwice(row.overrides); }
    }
  }

  lemma OrEmptyTwice(j: Json)
    ensures OrEmpty(OrEmpty(j)) == OrEmpty(j)
    ensures j.Obj? ==> OrEmpty(j) == j
  {
  }

  /** A cell of the database, followed through one refuse or keep apply. */
  lemma ChannelNoLoss(policy: Policy, x: Item, row: ChannelRow, b: Node, path: seq<string>)
    requires policy != Overwrite
    requires ChannelFrom(PlannedItem(policy, "channels", x, Some(ChannelBody(row)), b)).Some?
    ensures var t := PlannedItem(policy, "channels", x, Some(ChannelBody(row)), b);
            Accounted(Lookup(Some(ChannelBody(row)), path),
                      Lookup(Some(ChannelBody(ChannelAfter(Some(row), t))), path), Lookup(b, path))
  {
    var t := PlannedItem(policy, "channels", x, Some(ChannelBody(row)), b);
    MergedChannelStored(policy, x, row, b);
    ChannelReread(row, t);
    ChannelCells(row);
    ChannelCells(ChannelAfter(Some(row), t));
    forall p ensures Accounted(Lookup(Some(ChannelBody(row)), p), Lookup(Some(Obj(t.fields)), p), Lookup(b, p)) {
      NoLostEdit(policy, "channels", Obj(x.fields), ChannelBody(row), b, [], p);
    }
    ConfigItemAccounted(ChannelBody(row), Obj(t.fields), ChannelBody(ChannelAfter(Some(row), t)), b, CHANNEL_FIELDS,
                        path);
  }

  ghost predicate DeclaresNoState(n: Node) {
    forall p :: p in CHANNEL_STATE && p != ["enabled"] ==> WalkOrNull(n, p) == Null
  }

  /** The operator's switches on a channel, followed through one apply, under every policy and over every base. */
  lemma ChannelStateSurvives(policy: Policy, x: Item, row: ChannelRow, b: Node, p: seq<string>)
    requires p in CHANNEL_STATE && DeclaresNoState(Some(Obj(x.fields)))
    requires ChannelFrom(PlannedItem(policy, "channels", x, Some(ChannelBody(row)), b)).Some?
    ensures var t := PlannedItem(policy, "channels", x, Some(ChannelBody(row)), b);
            WalkOrNull(Some(ChannelBody(ChannelAfter(Some(row), t))), p) == WalkOrNull(Some(ChannelBody(row)), p)
            <==> (WalkOrNull(Some(ChannelBody(row)), p) == Null
                  || !GivesUp(policy, Obj(x.fields), ChannelBody(row), b, p))
  {
    var v := ChannelBody(row);
    var t := PlannedItem(policy, "channels", x, Some(v), b);
    MergedChannelStored(policy, x, row, b);
    ChannelCells(row);
    assert [] + p == p;
    assert p == ["enabled"] ==> |p| == 1;
    OperationalStateExactly(policy, "channels", Obj(x.fields), v, b, [], p);
    StateReread(row, t, p);
  }

  /** A written channel reads at the operator's switches as it was merged. */
  lemma StateReread(row: ChannelRow, t: Item, p: seq<string>)
    requires ChannelFrom(t).Some? && StoredAsMerged(row, t) && p in CHANNEL_STATE
    ensures WalkOrNull(Some(ChannelBody(ChannelAfter(Some(row), t))), p) == WalkOrNull(Some(Obj(t.fields)), p)
  {
    ChannelReread(row, t);
    if p == ["enabled"] {
      assert p[1..] == [];
    } else {
      var m, after := Some(Obj(t.fields)), Some(ChannelBody(ChannelAfter(Some(row), t)));
      if Cfg(m, "overrides").None? { OverridesCleared(row, t); }
      SameWalkBelowOverrides(m, after, p);
    }
  }

  lemma SameWalkBelowOverrides(m: Node, after: Node, p: seq<string>)
    requires p in CHANNEL_STATE && p != ["enabled"]
    requires Cfg(after, "overrides") ==
             (if Cfg(m, "overrides").Some? then Some(OrEmpty(Cfg(m, "overrides").value)) else Some(EMPTY))
    ensures WalkOrNull(after, p) == WalkOrNull(m, p)
  {
    assert |p| >= 3 && p[0] == "config" && p[1] == "overrides";
    LookupTwo(m, p);
    LookupTwo(after, p);
    var rest := p[2..];
    LookupNone(rest);
    LookupNone(rest[1..]);
  }

  /** Overrides that left the target are stored empty. */
  lemma OverridesCleared(row: ChannelRow, t: Item)
    requires ChannelFrom(t).Some? && Cfg(Some(Obj(t.fields)), "overrides").None?
    ensures Cfg(Some(ChannelBody(ChannelAfter(Some(row), t))), "overrides") == Some(EMPTY)
  {
    assert ChannelFrom(t).value.overrides == EMPTY;
    if PyEq(row.overrides, EMPTY) { PyEqFalsy(row.overrides, EMPTY); }
  }

  /** After a conflict-free apply of a canonical channel, applying it again plans and writes nothing. */
  lemma ChannelConverges(policy: Policy, x: Item, row: Option<ChannelRow>, b: Node)
    requires CanonicalChannel(policy, x)
    requires ConflictFree(ItemLog(policy, "channels", x, ChannelNode(row), b))
    requires ChannelFrom(PlannedItem(policy, "channels", x, ChannelNode(row), b)).Some?
    ensures var after := ChannelAfter(row, PlannedItem(policy, "channels", x, ChannelNode(row), b));
            && Settled(policy, "channels", Obj(x.fields), ChannelBody(after), [])
            && ChannelFrom(Item(x.ref, ChannelBody(after).fields)).Some?
            && UpdateChannel(after, ChannelFrom(Item(x.ref, ChannelBody(after).fields)).value) == after
  {
    var t := PlannedItem(policy, "channels", x, ChannelNode(row), b);
    var after := ChannelAfter(row, t);
    ChannelCells(after);
    if row.Some? {
      StoredChannelSettles(policy, x, row.value, b);
      OverridesStoredAsMapping(policy, x, row.value, b);
      MergedChannelStored(policy, x, row.value, b);
      ChannelReread(row.value, t);
    } else {
      NewChannelSettles(policy, x);
    }
    ChannelRewritten(x.ref, after);
  }

  lemma ChannelRewritten(ref: string, row: ChannelRow)
    requires OrEmpty(row.overrides) == row.overrides && !row.active.Null?
    ensures ChannelFrom(Item(ref, ChannelBody(row).fields)) == Some(row) && UpdateChannel(row, row) == row
  {
    ChannelCells(row);
  }

  lemma StoredChannelSettles(policy: Policy, x: Item, row: ChannelRow, b: Node)
    requires CanonicalChannel(policy, x)
    requires ConflictFree(ItemLog(policy, "channels", x, Some(ChannelBody(row)), b))
    requires ChannelFrom(PlannedItem(policy, "channels", x, Some(ChannelBody(row)), b)).Some?
    ensures var after := ChannelAfter(Some(row), PlannedItem(policy, "channels", x, Some(ChannelBody(row)), b));
            Settled(policy, "channels", Obj(x.fields), ChannelBody(after), [])
  {
    var v := ChannelBody(row);
    var t := PlannedItem(policy, "channels", x, Some(v), b);
    var after := ChannelAfter(Some(row), t);
    if policy == Keep {
      KeepIsSettled("channels", Obj(x.fields), ChannelBody(after), []);
      return;
    }
    MergedChannelStored(policy, x, row, b);
    ChannelReread(row, t);
    ChannelCells(row);
    ChannelCells(after);
    MergeSettles(policy, "channels", Obj(x.fields), v, b, Parts("channels", x.ref), []);
    if "config" in x.fields { CanonicalConfigMerged(policy, x, row, b); }
    ChannelSettles(policy, x, row, t);
  }

  lemma ChannelSettles(policy: Policy, x: Item, row: ChannelRow, t: Item)
    requires ShapedChannel(x) && ChannelFieldsKnown(x) && ChannelFrom(t).Some? && StoredAsMerged(row, t)
    requires Settled(policy, "channels", Obj(x.fields), Obj(t.fields), [])
    requires "config" in x.fields ==>
               && Get(Some(Obj(t.fields)), "config").Some? && Get(Some(Obj(t.fields)), "config").value.Obj?
               && (forall k :: k in x.fields["config"].fields ==> Cfg(Some(Obj(t.fields)), k).Some?)
               && ("overrides" in x.fields["config"].fields ==>
                     OrEmpty(Cfg(Some(Obj(t.fields)), "overrides").value)
                       == Cfg(Some(Obj(t.fields)), "overrides").value)
    ensures Settled(policy, "channels", Obj(x.fields), ChannelBody(ChannelAfter(Some(row), t)), [])
  {
    var after := ChannelAfter(Some(row), t);
    ChannelReread(row, t);
    ChannelCells(row);
    ChannelCells(after);
    ConfigItemSettled(policy, "channels", Obj(x.fields), Obj(t.fields), ChannelBody(after), CHANNEL_FIELDS);
  }

  lemma NewChannelSettles(policy: Policy, x: Item)
    requires CanonicalChannel(policy, x) && ChannelFrom(x).Some?
    ensures Settled(policy, "channels", Obj(x.fields), ChannelBody(ChannelFrom(x).value), [])
  {
    if policy == Keep {
      KeepIsSettled("channels", Obj(x.fields), ChannelBody(ChannelFrom(x).value), []);
      return;
    }
    SettledSelf(policy, "channels", Obj(x.fields), []);
    ChannelCells(ChannelFrom(x).value);
    ConfigItemSettled(policy, "channels", Obj(x.fields), Obj(x.fields), ChannelBody(ChannelFrom(x).value),
                      CHANNEL_FIELDS);
  }

  /** Every declared config field is in the target, the overrides as a mapping or as stored. */
  lemma CanonicalConfigMerged(policy: Policy, x: Item, row: ChannelRow, b: Node)
    requires ShapedChannel(x) && ChannelFieldsKnown(x) && "config" in x.fields
    ensures var v, m := ChannelBody(row),
            Some(Obj(PlannedItem(policy, "channels", x, Some(ChannelBody(row)), b).fields));
            && Get(m, "config").Some? && Get(m, "config").value.Obj?
            && (forall k :: k in x.fields["config"].fields ==> Cfg(m, k).Some?)
            && ("overrides" in x.fields["config"].fields ==>
                  OrEmpty(Cfg(m, "overrides").value) == Cfg(m, "overrides").value)
  {
    var v := ChannelBody(row);
    var d := Obj(x.fields);
    ChannelCells(row);
    MergedGet(policy, "channels", d, v, b, [], "config");
    assert [] + ["config"] == ["config"] && forall section :: !IsOperational(section, ["config"]);
    var dc, vc, bc := d.fields["config"], v.fields["config"], Get(b, "config");
    MergedGet(policy, "channels", dc, vc, bc, ["config"], "");
    forall k | k in dc.fields ensures MergeField(policy, "channels", dc, vc, bc, ["config"], k).Some? {
      assert k in vc.fields;
    }
    forall k | k in dc.fields ensures Get(Some(MergeNode(policy, "channels", dc, vc, bc, ["config"])), k).Some? {
      MergedGet(policy, "channels", dc, vc, bc, ["config"], k);
    }
    if "overrides" in dc.fields { OverridesMergedAsMapping(policy, x, row, b); }
  }

  /** Canonical overrides merge to something that is projected as it is. */
  lemma OverridesMergedAsMapping(policy: Policy, x: Item, row: ChannelRow, b: Node)
    requires ShapedChannel(x)
    ensures var m := Cfg(Some(Obj(PlannedItem(policy, "channels", x, Some(ChannelBody(row)), b).fields)), "overrides");
            m.Some? ==> OrEmpty(m.value) == m.value
  {
    var v := ChannelBody(row);
    var t := PlannedItem(policy, "channels", x, Some(v), b);
    ChannelCells(row);
    var path := ["config", "overrides"];
    LookupTwo(Some(v), path);
    LookupTwo(Some(Obj(x.fields)), path);
    LookupTwo(Some(Obj(t.fields)), path);
    MergedOrigin(policy, "channels", Obj(x.fields), v, b, [], path);
  }

  /** A canonical channel's overrides are stored as they will be projected. */
  lemma OverridesStoredAsMapping(policy: Policy, x: Item, row: ChannelRow, b: Node)
    requires ShapedChannel(x)
    requires ChannelFrom(PlannedItem(policy, "channels", x, Some(ChannelBody(row)), b)).Some?
    ensures var t := PlannedItem(policy, "channels", x, Some(ChannelBody(row)), b);
            OrEmpty(ChannelAfter(Some(row), t).overrides) == ChannelAfter(Some(row), t).overrides
  {
    var t := PlannedItem(policy, "channels", x, Some(ChannelBody(row)), b);
    OverridesMergedAsMapping(policy, x, row, b);
    var new_ := ChannelFrom(t).value.overrides;
    if PyEq(row.overrides, new_) { PyEqFalsy(row.overrides, new_); }
  }

  // ---- Rules ----

  /** Only fields the projection emits, with a mapping for the parameters. */
  predicate ShapedRule(x: Item) {
    && x.fields.Keys <= {"enabled", "config"}
    && ("config" in x.fields ==>
          && x.fields["config"].Obj? && x.fields["config"].fields.Keys <= RULE_FIELDS
          && ("params" in x.fields["config"].fields ==> x.fields["config"].fields["params"].Obj?))
  }

  /** The channels of a rule, if it declares any, in the order in which the projection lists them. */
  predicate RuleListSorted(x: Item) {
    var channels := Cfg(Some(Obj(x.fields)), "channels");
    channels.Some? ==> SortedStrings(channels.value)
  }

  predicate CanonicalRule(policy: Policy, x: Item) {
    ShapedRule(x) && (policy == Keep || RuleListSorted(x))
  }

  predicate SortedStrings(j: Json) {
    IsStrings(j) && StrictlySorted(StringsOf(j))
  }

  /** Storing a list of refs as a set and listing the set again sorts it. */
  lemma StoredStrings(j: Json)
    requires IsStrings(j)
    ensures SortedStrings(j) ==> Strings(Sorted(Elements(StringsOf(j)))) == j
  {
    if SortedStrings(j) {
      SortedOfSorted(StringsOf(j));
    }
  }

  lemma ListedSet(s: set<string>)
    ensures SortedStrings(Strings(Sorted(s))) && Elements(StringsOf(Strings(Sorted(s)))) == s
    ensures NoRepeats(StringsOf(Strings(Sorted(s))))
  {
    assert IsStrings(Strings(Sorted(s))) && StringsOf(Strings(Sorted(s))) == Sorted(s);
  }

  function RuleNode(row: Option<RuleRow>): Node {
    match row case Some(r) => Some(RuleBody(r)) case None => None
  }

  function RuleAfter(known: set<string>, row: Option<RuleRow>, t: Item): RuleRow
    requires RuleFrom(known, t).Ok?
  {
    if row.Some? then UpdateRule(row.value, RuleFrom(known, t).value) else RuleFrom(known, t).value
  }

  lemma RuleCells(row: RuleRow)
    ensures IsConfigItem(RuleBody(row), RULE_FIELDS)
    ensures var n := Some(RuleBody(row));
            && Get(n, "enabled") == Some(row.enabled)
            && Cfg(n, "rule_path") == Some(row.path) && Cfg(n, "label") == Some(row.title)
            && Cfg(n, "params") == Some(OrEmpty(row.params)) && Cfg(n, "priority") == Some(row.priority)
            && Cfg(n, "channels") == Some(Strings(Sorted(row.channels)))
  {
  }

  const PLAIN_RULE_FIELDS := {"rule_path", "label", "priority"}

  ghost predicate RuleStoredAsMerged(row: RuleRow, t: Item) {
    var v, m := Some(RuleBody(row)), Some(Obj(t.fields));
    && (Get(m, "enabled").Some? ==> Column(row.enabled, Get(m, "enabled").value) == Get(m, "enabled").value)
    && (forall k :: k in PLAIN_RULE_FIELDS && Cfg(v, k).Some? && Cfg(m, k).Some? ==>
          Column(Cfg(v, k).value, Cfg(m, k).value) == Cfg(m, k).value)
    && (Cfg(m, "params").Some? ==>
          OrEmpty(Column(row.params, Cfg(m, "params").value)) == OrEmpty(Cfg(m, "params").value))
  }

  lemma MergedRuleStored(policy: Policy, x: Item, row: RuleRow, b: Node)
    ensures RuleStoredAsMerged(row, PlannedItem(policy, "rule_configs", x, Some(RuleBody(row)), b))
  {
    var d, v := Obj(x.fields), RuleBody(row);
    var m := MergeNode(policy, "rule_configs", d, v, b, []);
    MergedGet(policy, "rule_configs", d, v, b, [], "");
    RuleCells(row);
    if Get(Some(m), "enabled").Some? {
      ColumnHoldsMerged(policy, "rule_configs", d, v, b, ["enabled"], row.enabled);
    }
    forall k | k in PLAIN_RULE_FIELDS && Cfg(Some(v), k).Some? && Cfg(Some(m), k).Some?
      ensures Column(Cfg(Some(v), k).value, Cfg(Some(m), k).value) == Cfg(Some(m), k).value
    {
      LookupTwo(Some(v), ["config", k]);
      LookupTwo(Some(m), ["config", k]);
      ColumnHoldsMerged(policy, "rule_configs", d, v, b, ["config", k], Cfg(Some(v), k).value);
    }
    if Cfg(Some(m), "params").Some? {
      LookupTwo(Some(v), ["config", "params"]);
      LookupTwo(Some(m), ["config", "params"]);
      MappingColumnHoldsMerged(policy, "rule_configs", d, v, b, ["config", "params"], row.params);
    }
  }

  /** What a written rule cell reads back as. */
  function RuleCellAfter(k: string, merged: Json): Json {
    if k == "params" then OrEmpty(merged)
    else if k == "channels" && IsStrings(merged) then Strings(Sorted(Elements(StringsOf(merged))))
    else merged
  }

  lemma RuleCellReread(known: set<string>, row: RuleRow, t: Item, k: string)
    requires RuleFrom(known, t).Ok? && RuleStoredAsMerged(row, t) && k in RULE_FIELDS
    ensures Cfg(Some(Obj(t.fields)), k).Some?
    ensures Cfg(Some(RuleBody(RuleAfter(known, Some(row), t))), k)
         == Some(RuleCellAfter(k, Cfg(Some(Obj(t.fields)), k).value))
  {
    var c := t.fields["config"].fields;
    assert c[k] == Cfg(Some(Obj(t.fields)), k).value;
    var new_ := RuleFrom(known, t).value;
    RuleCells(RuleAfter(known, Some(row), t));
    if k == "params" {
      assert new_.params == c[k];
    } else if k == "channels" {
      assert new_.channels == Elements(StringsOf(c[k]));
    } else {
      PlainRuleCell(known, row, t, k);
    }
  }

  lemma PlainRuleCell(known: set<string>, row: RuleRow, t: Item, k: string)
    requires RuleFrom(known, t).Ok? && RuleStoredAsMerged(row, t) && k in PLAIN_RULE_FIELDS
    ensures Cfg(Some(RuleBody(RuleAfter(known, Some(row), t))), k) == Some(t.fields["config"].fields[k])
  {
    var c := t.fields["config"].fields;
    assert c[k] == Cfg(Some(Obj(t.fields)), k).value;
    var new_ := RuleFrom(known, t).value;
    RuleCells(row);
    RuleCells(RuleAfter(known, Some(row), t));
    if k == "rule_path" { assert new_.path == c[k]; }
    else if k == "label" { assert new_.title == c[k]; }
    else { assert new_.priority == c[k]; }
  }

  lemma RuleReread(known: set<string>, row: RuleRow, t: Item)
    requires RuleFrom(known, t).Ok? && RuleStoredAsMerged(row, t)
    ensures var v, m, after := Some(RuleBody(row)), Some(Obj(t.fields)), Some(RuleBody(RuleAfter(known, Some(row), t)));
            && Reread(Get(v, "enabled"), Get(m, "enabled"), Get(after, "enabled"))
            && (Get(m, "enabled").Some? ==> Get(after, "enabled") == Get(m, "enabled"))
            && (forall k :: k in RULE_FIELDS ==> Reread(Cfg(v, k), Cfg(m, k), Cfg(after, k)))
  {
    RuleCells(row);
    RuleCells(RuleAfter(known, Some(row), t));
    forall k | k in RULE_FIELDS
      ensures Reread(Cfg(Some(RuleBody(row)), k), Cfg(Some(Obj(t.fields)), k),
                     Cfg(Some(RuleBody(RuleAfter(known, Some(row), t))), k))
    {
      RuleCellReread(known, row, t, k);
      if k == "params" { OrEmptyTwice(row.params); OrEmptyTwice(Cfg(Some(Obj(t.fields)), k).value); }
      if k == "channels" { ListedSet(row.channels); }
    }
  }

  lemma RuleNoLoss(policy: Policy, known: set<string>, x: Item, row: RuleRow, b: Node, path: seq<string>)
    requires policy != Overwrite
    requires RuleFrom(known, PlannedItem(policy, "rule_configs", x, Some(RuleBody(row)), b)).Ok?
    ensures var t := PlannedItem(policy, "rule_configs", x, Some(RuleBody(row)), b);
            Accounted(Lookup(Some(RuleBody(row)), path),
                      Lookup(Some(RuleBody(RuleAfter(known, Some(row), t))), path), Lookup(b, path))
  {
    var t := PlannedItem(policy, "rule_configs", x, Some(RuleBody(row)), b);
    MergedRuleStored(policy, x, row, b);
    RuleReread(known, row, t);
    RuleCells(row);
    RuleCells(RuleAfter(known, Some(row), t));
    forall p ensures Accounted(Lookup(Some(RuleBody(row)), p), Lookup(Some(Obj(t.fields)), p), Lookup(b, p)) {
      NoLostEdit(policy, "rule_configs", Obj(x.fields), RuleBody(row), b, [], p);
    }
    ConfigItemAccounted(RuleBody(row), Obj(t.fields), RuleBody(RuleAfter(known, Some(row), t)), b, RULE_FIELDS, path);
  }

  lemma RuleConverges(policy: Policy, known: set<string>, x: Item, row: Option<RuleRow>, b: Node)
    requires CanonicalRule(policy, x)
    requires ConflictFree(ItemLog(policy, "rule_configs", x, RuleNode(row), b))
    requires RuleFrom(known, PlannedItem(policy, "rule_configs", x, RuleNode(row), b)).Ok?
    ensures var after := RuleAfter(known, row, PlannedItem(policy, "rule_configs", x, RuleNode(row), b));
            && after.channels <= known
            && Settled(policy, "rule_configs", Obj(x.fields), RuleBody(after), [])
            && RuleFrom(known, Item(x.ref, RuleBody(after).fields)) == Ok(after)
            && UpdateRule(after, after) == after
  {
    var t := PlannedItem(policy, "rule_configs", x, RuleNode(row), b);
    var after := RuleAfter(known, row, t);
    if row.Some? {
      StoredRuleSettles(policy, known, x, row.value, b);
    } else {
      NewRuleSettles(policy, known, x);
    }
    RuleRewritten(known, x.ref, after);
  }

  lemma StoredRuleSettles(policy: Policy, known: set<string>, x: Item, row: RuleRow, b: Node)
    requires CanonicalRule(policy, x)
    requires ConflictFree(ItemLog(policy, "rule_configs", x, Some(RuleBody(row)), b))
    requires RuleFrom(known, PlannedItem(policy, "rule_configs", x, Some(RuleBody(row)), b)).Ok?
    ensures var after := RuleAfter(known, Some(row), PlannedItem(policy, "rule_configs", x, Some(RuleBody(row)), b));
            && Settled(policy, "rule_configs", Obj(x.fields), RuleBody(after), [])
            && OrEmpty(after.params) == after.params && !after.enabled.Null? && after.channels <= known
  {
    var t := PlannedItem(policy, "rule_configs", x, Some(RuleBody(row)), b);
    MergedRuleStored(policy, x, row, b);
    MergedCanonicalRule(policy, x, row, b);
    MergeSettles(policy, "rule_configs", Obj(x.fields), RuleBody(row), b, Parts("rule_configs", x.ref), []);
    if "enabled" in x.fields { MergedEnabled(policy, x, row, b); }
    RuleCellReread(known, row, t, "params");
    RuleSettles(policy, known, x, row, t);
    RuleParamsStored(known, row, t);
    RuleEnabledStored(known, row, t);
  }

  lemma RuleEnabledStored(known: set<string>, row: RuleRow, t: Item)
    requires RuleFrom(known, t).Ok?
    ensures !RuleAfter(known, Some(row), t).enabled.Null?
  {
  }

  lemma MergedEnabled(policy: Policy, x: Item, row: RuleRow, b: Node)
    requires "enabled" in x.fields
    ensures Get(Some(Obj(PlannedItem(policy, "rule_configs", x, Some(RuleBody(row)), b).fields)), "enabled").Some?
  {
    RuleCells(row);
    MergedGet(policy, "rule_configs", Obj(x.fields), RuleBody(row), b, [], "enabled");
  }

  /** The two cells whose projection is not verbatim merge to values the projection keeps. */
  lemma MergedCanonicalRule(policy: Policy, x: Item, row: RuleRow, b: Node)
    requires ShapedRule(x)
    ensures var m := Some(Obj(PlannedItem(policy, "rule_configs", x, Some(RuleBody(row)), b).fields));
            && (Cfg(m, "params").Some? ==> OrEmpty(Cfg(m, "params").value) == Cfg(m, "params").value)
            && (RuleListSorted(x) && Cfg(m, "channels").Some? ==> SortedStrings(Cfg(m, "channels").value))
  {
    RuleCells(row);
    ListedSet(row.channels);
    MergedRuleCellOrigin(policy, x, row, b, "params");
    MergedRuleCellOrigin(policy, x, row, b, "channels");
  }

  lemma MergedRuleCellOrigin(policy: Policy, x: Item, row: RuleRow, b: Node, k: string)
    ensures var m, vk, dk := Cfg(Some(Obj(PlannedItem(policy, "rule_configs", x, Some(RuleBody(row)), b).fields)), k),
                             Cfg(Some(RuleBody(row)), k), Cfg(Some(Obj(x.fields)), k);
            m == vk || m == dk || m.None? || (m.value.Obj? && vk.Some? && vk.value.Obj?)
  {
    var v := RuleBody(row);
    var t := PlannedItem(policy, "rule_configs", x, Some(v), b);
    LookupTwo(Some(v), ["config", k]);
    LookupTwo(Some(Obj(x.fields)), ["config", k]);
    LookupTwo(Some(Obj(t.fields)), ["config", k]);
    MergedOrigin(policy, "rule_configs", Obj(x.fields), v, b, [], ["config", k]);
  }

  lemma RuleSettles(policy: Policy, known: set<string>, x: Item, row: RuleRow, t: Item)
    requires CanonicalRule(policy, x) && RuleFrom(known, t).Ok? && RuleStoredAsMerged(row, t)
    requires Settled(policy, "rule_configs", Obj(x.fields), Obj(t.fields), [])
    requires "enabled" in x.fields ==> Get(Some(Obj(t.fields)), "enabled").Some?
    requires Cfg(Some(Obj(t.fields)), "params").Some? ==>
               OrEmpty(Cfg(Some(Obj(t.fields)), "params").value) == Cfg(Some(Obj(t.fields)), "params").value
    requires policy != Keep && Cfg(Some(Obj(t.fields)), "channels").Some? ==>
               SortedStrings(Cfg(Some(Obj(t.fields)), "channels").value)
    ensures Settled(policy, "rule_configs", Obj(x.fields), RuleBody(RuleAfter(known, Some(row), t)), [])
  {
    var after := RuleAfter(known, Some(row), t);
    if policy == Keep {
      KeepIsSettled("rule_configs", Obj(x.fields), RuleBody(after), []);
      return;
    }
    RuleReread(known, row, t);
    RuleCells(row);
    RuleCells(after);
    forall k | k in RULE_FIELDS
      ensures Cfg(Some(Obj(t.fields)), k).Some? && Cfg(Some(RuleBody(after)), k) == Cfg(Some(Obj(t.fields)), k)
    {
      RuleCellReread(known, row, t, k);
      if k == "channels" { StoredStrings(Cfg(Some(Obj(t.fields)), k).value); }
    }
    ConfigItemSettled(policy, "rule_configs", Obj(x.fields), Obj(t.fields), RuleBody(after), RULE_FIELDS);
  }

  lemma RuleParamsStored(known: set<string>, row: RuleRow, t: Item)
    requires RuleFrom(known, t).Ok? && RuleStoredAsMerged(row, t)
    requires OrEmpty(Cfg(Some(Obj(t.fields)), "params").value) == Cfg(Some(Obj(t.fields)), "params").value
    ensures OrEmpty(RuleAfter(known, Some(row), t).params) == RuleAfter(known, Some(row), t).params
  {
    var new_ := RuleFrom(known, t).value.params;
    if PyEq(row.params, new_) { PyEqFalsy(row.params, new_); }
  }

  lemma NewRuleSettles(policy: Policy, known: set<string>, x: Item)
    requires CanonicalRule(policy, x) && RuleFrom(known, x).Ok?
    ensures Settled(policy, "rule_configs", Obj(x.fields), RuleBody(RuleFrom(known, x).value), [])
    ensures OrEmpty(RuleFrom(known, x).value.params) == RuleFrom(known, x).value.params
  {
    var row := RuleFrom(known, x).value;
    OrEmptyTwice(row.params);
    if policy == Keep {
      KeepIsSettled("rule_configs", Obj(x.fields), RuleBody(row), []);
      return;
    }
    SettledSelf(policy, "rule_configs", Obj(x.fields), []);
    RuleCells(row);
    forall k | k in RULE_FIELDS ensures Cfg(Some(RuleBody(row)), k) == Cfg(Some(Obj(x.fields)), k) {
      NewRuleCell(known, x, k);
    }
    ConfigItemSettled(policy, "rule_configs", Obj(x.fields), Obj(x.fields), RuleBody(row), RULE_FIELDS);
  }

  lemma NewRuleCell(known: set<string>, x: Item, k: string)
    requires ShapedRule(x) && RuleListSorted(x) && RuleFrom(known, x).Ok? && k in RULE_FIELDS
    ensures Cfg(Some(RuleBody(RuleFrom(known, x).value)), k) == Cfg(Some(Obj(x.fields)), k)
  {
    var c := x.fields["config"].fields;
    RuleCells(RuleFrom(known, x).value);
    if k == "channels" { StoredStrings(c[k]); }
    if k == "params" { OrEmptyTwice(c[k]); }
  }

  lemma RuleRewritten(known: set<string>, ref: string, row: RuleRow)
    requires OrEmpty(row.params) == row.params && !row.enabled.Null? && row.channels <= known
    ensures RuleFrom(known, Item(ref, RuleBody(row).fields)) == Ok(row)
    ensures UpdateRule(row, row) == row
  {
    RuleCells(row);
    ListedSet(row.channels);
  }

  // ---- Personas ----

  predicate ShapedPersona(x: Item) {
    x.fields.Keys <= {"name", "permissions"}
  }

  predicate PersonaListSorted(x: Item) {
    "permissions" in x.fields ==> SortedStrings(x.fields["permissions"])
  }

  predicate CanonicalPersona(policy: Policy, x: Item) {
    ShapedPersona(x) && (policy == Keep || PersonaListSorted(x))
  }

  predicate PersonaOk(known: set<string>, x: Item, slug: string -> string) {
    && "name" in x.fields && x.fields["name"].Str? && slug(x.fields["name"].s) == x.ref
    && "permissions" in x.fields && IsStrings(x.fields["permissions"])
    && Elements(StringsOf(x.fields["permissions"])) <= known
  }

  /** The permissions a group holds afterwards are its own, or the last applied version declared its own. */
  lemma PersonaNoLoss(policy: Policy, x: Item, name: string, permissions: set<string>, b: Node)
    requires policy != Overwrite
    ensures var t := PlannedItem(policy, "rbac_personas", x, Some(PersonaBody(name, permissions)), b);
            "permissions" in t.fields && IsStrings(t.fields["permissions"]) ==>
              || Elements(StringsOf(t.fields["permissions"])) == permissions
              || SameNode(Get(b, "permissions"), Some(Strings(Sorted(permissions))))
  {
    var v := PersonaBody(name, permissions);
    var t := PlannedItem(policy, "rbac_personas", x, Some(v), b);
    NoLostEdit(policy, "rbac_personas", Obj(x.fields), v, b, [], ["permissions"]);
    ListedSet(permissions);
  }

  function PersonaNode(stored: Option<(string, set<string>)>): Node {
    match stored case Some(g) => Some(PersonaBody(g.0, g.1)) case None => None
  }

  lemma PersonaConverges(policy: Policy, known: set<string>, x: Item, stored: Option<(string, set<string>)>, b: Node,
                         slug: string -> string)
    requires CanonicalPersona(policy, x)
    requires ConflictFree(ItemLog(policy, "rbac_personas", x, PersonaNode(stored), b))
    requires PersonaOk(known, PlannedItem(policy, "rbac_personas", x, PersonaNode(stored), b), slug)
    requires stored.Some? ==>
               PlannedItem(policy, "rbac_personas", x, PersonaNode(stored), b).fields["name"].s == stored.value.0
    ensures var t := PlannedItem(policy, "rbac_personas", x, PersonaNode(stored), b);
            var after := PersonaBody(t.fields["name"].s, Elements(StringsOf(t.fields["permissions"])));
            && Settled(policy, "rbac_personas", Obj(x.fields), after, [])
            && PersonaOk(known, Item(x.ref, after.fields), slug)
            && Elements(StringsOf(after.fields["permissions"])) == Elements(StringsOf(t.fields["permissions"]))
  {
    var t := PlannedItem(policy, "rbac_personas", x, PersonaNode(stored), b);
    PersonaBack(known, x.ref, t, slug);
    if stored.Some? {
      MergeSettles(policy, "rbac_personas", Obj(x.fields), PersonaBody(stored.value.0, stored.value.1), b,
                   Parts("rbac_personas", x.ref), []);
      MergedPermissionsSorted(policy, x, stored.value.0, stored.value.1, b);
    } else {
      SettledSelf(policy, "rbac_personas", Obj(x.fields), []);
    }
    PersonaSettles(policy, x, t);
  }

  /** What a planned persona leaves reads back as a persona with the same permissions. */
  lemma PersonaBack(known: set<string>, ref: string, t: Item, slug: string -> string)
    requires PersonaOk(known, t, slug) && t.ref == ref
    ensures var after := PersonaBody(t.fields["name"].s, Elements(StringsOf(t.fields["permissions"])));
            && PersonaOk(known, Item(ref, after.fields), slug)
            && Elements(StringsOf(after.fields["permissions"])) == Elements(StringsOf(t.fields["permissions"]))
  {
    ListedSet(Elements(StringsOf(t.fields["permissions"])));
  }

  lemma PersonaSettles(policy: Policy, x: Item, t: Item)
    requires ShapedPersona(x) && x.fields.Keys <= t.fields.Keys
    requires "name" in t.fields && t.fields["name"].Str?
    requires "permissions" in t.fields && IsStrings(t.fields["permissions"])
    requires policy == Keep || SortedStrings(t.fields["permissions"])
    requires Settled(policy, "rbac_personas", Obj(x.fields), Obj(t.fields), [])
    ensures Settled(policy, "rbac_personas", Obj(x.fields),
                    PersonaBody(t.fields["name"].s, Elements(StringsOf(t.fields["permissions"]))), [])
  {
    StoredStrings(t.fields["permissions"]);
    var after := PersonaBody(t.fields["name"].s, Elements(StringsOf(t.fields["permissions"])));
    if policy == Keep {
      KeepIsSettled("rbac_personas", Obj(x.fields), after, []);
      return;
    }
    assert forall k :: k in after.fields ==> after.fields[k] == t.fields[k];
  }

  lemma MergedPermissionsSorted(policy: Policy, x: Item, name: string, permissions: set<string>, b: Node)
    ensures var t := PlannedItem(policy, "rbac_personas", x, Some(PersonaBody(name, permissions)), b);
            PersonaListSorted(x) && "permissions" in t.fields ==> SortedStrings(t.fields["permissions"])
  {
    var v := PersonaBody(name, permissions);
    var t := PlannedItem(policy, "rbac_personas", x, Some(v), b);
    ListedSet(permissions);
    MergedOrigin(policy, "rbac_personas", Obj(x.fields), v, b, [], ["permissions"]);
  }

  // ---- What does not read back as declared ----

  lemma NotState(rel: seq<string>)
    requires (|rel| == 1 && rel[0] != "enabled") || |rel| == 2
    ensures !IsOperational("channels", rel)
  {
    if |rel| == 1 { assert rel[0] != ["enabled"][0]; }
  }

  /** A field that is not stored is never settled, unless the operator's side is kept. */
  lemma UnknownFieldUnsettled(policy: Policy, x: Item, row: ChannelRow)
    requires policy != Keep && ShapedChannel(x) && !ChannelFieldsKnown(x)
    ensures !Settled(policy, "channels", Obj(x.fields), ChannelBody(row), [])
  {
    ChannelCells(row);
    if k :| k in x.fields && k !in {"enabled", "config"} {
      NotState([] + [k]);
    } else {
      var k :| k in x.fields["config"].fields && k !in CHANNEL_FIELDS;
      NotState([] + ["config"]);
      NotState([] + ["config"] + [k]);
      assert !Settled(policy, "channels", x.fields["config"], ChannelBody(row).fields["config"], [] + ["config"]);
    }
  }

  /** A list that equals a list of strings in Python's sense is that list. */
  lemma PyEqStrings(a: Json, b: Json)
    requires IsStrings(b) && PyEq(a, b)
    ensures a == b
  {
    assert a.Arr? && |Norm(a).items| == |a.items| && |Norm(b).items| == |b.items|;
    forall i | 0 <= i < |a.items| ensures a.items[i] == b.items[i] {
      assert Norm(a).items[i] == Norm(a.items[i]) && Norm(b).items[i] == Norm(b.items[i]);
    }
  }

  /** Stored and listed again, an unsorted list is not what was declared. */
  lemma RelistedDiffers(j: Json)
    requires IsStrings(j) && !SortedStrings(j)
    ensures !PyEq(j, Strings(Sorted(Elements(StringsOf(j)))))
  {
    var listed := Strings(Sorted(Elements(StringsOf(j))));
    ListedSet(Elements(StringsOf(j)));
    if PyEq(j, listed) { PyEqStrings(j, listed); }
  }

  /**
   Unless the operator's side is kept, an unsorted list of channels is stored as declared and reads back
   otherwise.
   */
  lemma UnsortedRuleUnsettled(policy: Policy, known: set<string>, x: Item, row: Option<RuleRow>, b: Node)
    requires policy != Keep && ShapedRule(x) && !RuleListSorted(x)
    requires ConflictFree(ItemLog(policy, "rule_configs", x, RuleNode(row), b))
    requires RuleFrom(known, PlannedItem(policy, "rule_configs", x, RuleNode(row), b)).Ok?
    ensures var after := RuleAfter(known, row, PlannedItem(policy, "rule_configs", x, RuleNode(row), b));
            !Settled(policy, "rule_configs", Obj(x.fields), RuleBody(after), [])
  {
    var t := PlannedItem(policy, "rule_configs", x, RuleNode(row), b);
    var after := RuleAfter(known, row, t);
    var declared := Cfg(Some(Obj(x.fields)), "channels").value;
    if row.Some? {
      MergeSettles(policy, "rule_configs", Obj(x.fields), RuleBody(row.value), b, Parts("rule_configs", x.ref), []);
    } else {
      SettledSelf(policy, "rule_configs", Obj(x.fields), []);
    }
    SettledCell(policy, Obj(x.fields), Obj(t.fields));
    PyEqStrings(declared, t.fields["config"].fields["channels"]);
    RelistedDiffers(declared);
    RuleCells(after);
    if Settled(policy, "rule_configs", Obj(x.fields), RuleBody(after), []) {
      SettledCell(policy, Obj(x.fields), RuleBody(after));
    }
  }

  lemma SettledCell(policy: Policy, d: Json, v: Json)
    requires policy != Keep && Settled(policy, "rule_configs", d, v, []) && Cfg(Some(d), "channels").Some?
    requires Cfg(Some(v), "channels").Some? && Cfg(Some(v), "channels").value.Arr?
    ensures PyEq(Cfg(Some(d), "channels").value, Cfg(Some(v), "channels").value)
  {
    assert Settled(policy, "rule_configs", d.fields["config"], v.fields["config"], [] + ["config"]);
  }

  /** The same for the permissions of a persona. */
  lemma UnsortedPersonaUnsettled(policy: Policy, known: set<string>, x: Item, stored: Option<(string, set<string>)>,
                                 b: Node, slug: string -> string)
    requires policy != Keep && !PersonaListSorted(x)
    requires ConflictFree(ItemLog(policy, "rbac_personas", x, PersonaNode(stored), b))
    requires PersonaOk(known, PlannedItem(policy, "rbac_personas", x, PersonaNode(stored), b), slug)
    ensures var t := PlannedItem(policy, "rbac_personas", x, PersonaNode(stored), b);
            var after := PersonaBody(t.fields["name"].s, Elements(StringsOf(t.fields["permissions"])));
            !Settled(policy, "rbac_personas", Obj(x.fields), after, [])
  {
    var t := PlannedItem(policy, "rbac_personas", x, PersonaNode(stored), b);
    if stored.Some? {
      MergeSettles(policy, "rbac_personas", Obj(x.fields), PersonaBody(stored.value.0, stored.value.1), b,
                   Parts("rbac_personas", x.ref), []);
    } else {
      SettledSelf(policy, "rbac_personas", Obj(x.fields), []);
    }
    assert PyEq(x.fields["permissions"], t.fields["permissions"]);
    PyEqStrings(x.fields["permissions"], t.fields["permissions"]);
    RelistedDiffers(x.fields["permissions"]);
  }
}
