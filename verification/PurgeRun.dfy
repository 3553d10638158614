/** The purge as it runs: count, detach, empty, delete with cascade, audit, and roll back unless applied. */
module PurgeRun {
  import opened Texts
  import opened PurgeOrder
  import opened SyntheticPurge
  import opened PurgeSafety

  datatype Report = Report(before: map<string, nat>, after: map<string, nat>, cascade: map<string, nat>,
                           detached: map<(string, string), nat>)

  /** A table that did not end as its action promises, with its sizes. */
  datatype Breach = Changed(table: string, before: nat, after: nat) | LeftOver(table: string, after: nat)

  datatype Outcome =
    | Done(report: Report)
    | Refused(problems: seq<Problem>)
    | Aborted(failure: Failure, broken: seq<Breach>)

  function Counts(tables: Tables): map<string, nat> {
    map t | t in tables :: |tables[t]|
  }

  function CountsIn(tables: Tables, labels: set<string>): map<string, nat> {
    map t | t in labels && t in tables :: |tables[t]|
  }

  lemma CountsOneMore(tables: Tables, labels: seq<string>, i: nat)
    requires i < |labels| && labels[i] in tables
    ensures CountsIn(tables, Elements(labels[..i]))[labels[i] := |tables[labels[i]]|]
            == CountsIn(tables, Elements(labels[..i + 1]))
  {
    OneMore(labels, i);
  }

  lemma CountsOfAll(tables: Tables)
    ensures CountsIn(tables, {}) == map[]
    ensures CountsIn(tables, tables.Keys) == Counts(tables)
  {
  }

  lemma EmptiedOneMore(tables: Tables, order: seq<string>, i: nat)
    requires i < |order|
    ensures var now := Emptied(tables, Elements(order[..i]));
            (if order[i] in now then now[order[i] := map[]] else now) == Emptied(tables, Elements(order[..i + 1]))
  {
    OneMore(order, i);
  }

  lemma AllOf(xs: seq<string>, s: set<string>)
    requires xs == Sorted(s)
    ensures Elements(xs[..|xs|]) == s
  {
    assert xs[..|xs|] == xs;
  }

  /** Rows whose field holds a pointer. */
  function Pointing(table: Table, field: string): set<int> {
    set pk | pk in table && field in table[pk].refs && table[pk].refs[field].Some?
  }

  function At(m: map<(string, string), nat>, k: (string, string)): nat {
    if k in m then m[k] else 0
  }

  /** For the given tables, how many pointers each of their fields let go of; nothing else is counted. */
  ghost predicate DetachedCounts(tables: Tables, policy: map<string, Rule>, done: set<string>,
                                 detached: map<(string, string), nat>) {
    && (forall k: (string, string) :: k in detached ==> k.0 in done)
    && forall t, f :: t in done && t in tables && t in policy && f in policy[t].detach ==>
         At(detached, (t, f)) == |Pointing(tables[t], f)|
  }

  /** The collector half way: everything that cascades from a row outside the frontier is already a victim. */
  ghost predicate Collecting(tables: Tables, models: map<string, Model>, seeds: set<Key>, all: set<Key>,
                             victims: set<Key>, frontier: set<Key>) {
    && seeds <= victims <= all && frontier <= victims
    && Referrers(tables, models, victims - frontier, Cascade) <= victims
  }

  /** Django's collector: batch by batch, until nothing new cascades. */
  method Collect(tables: Tables, models: map<string, Model>, seeds: set<Key>) returns (victims: set<Key>)
    requires seeds <= AllRows(tables)
    ensures victims == Cascaded(tables, models, seeds)
  {
    victims := seeds;
    var frontier := seeds;
    ghost var all := Cascaded(tables, models, seeds);
    CollectingAtFirst(tables, models, seeds, all);
    while frontier != {}
      invariant Collecting(tables, models, seeds, all, victims, frontier)
      decreases |all - victims|, |frontier|
    {
      var found := Referrers(tables, models, frontier, Cascade) - victims;
      CollectOnce(tables, models, seeds, all, victims, frontier, found);
      victims, frontier := victims + found, found;
    }
    assert victims - {} == victims;
    CascadedLeast(tables, models, seeds, victims);
  }

  lemma CollectingAtFirst(tables: Tables, models: map<string, Model>, seeds: set<Key>, all: set<Key>)
    requires seeds <= all
    ensures Collecting(tables, models, seeds, all, seeds, seeds)
  {
    assert seeds - seeds == {};
    assert Referrers(tables, models, {}, Cascade) == {};
  }

  lemma CollectOnce(tables: Tables, models: map<string, Model>, seeds: set<Key>, all: set<Key>,
                    victims: set<Key>, frontier: set<Key>, found: set<Key>)
    requires Collecting(tables, models, seeds, all, victims, frontier) && frontier != {}
    requires Referrers(tables, models, all, Cascade) <= all
    requires found == Referrers(tables, models, frontier, Cascade) - victims
    ensures Collecting(tables, models, seeds, all, victims + found, found)
    ensures |all - (victims + found)| < |all - victims|
            || (|all - (victims + found)| == |all - victims| && |found| < |frontier|)
  {
    assert (victims + found) - found == victims;
    forall k | k in found ensures k in all { MoreHits(tables, models, frontier, all, k); }
    forall k | k in Referrers(tables, models, victims, Cascade) ensures k in victims + found {
    }
    Subset(all - (victims + found), all - victims);
    if found == {} { Subset(found, frontier); } else {
      var k :| k in found;
      assert k in all - victims && k !in all - (victims + found);
    }
  }

  /** A table with the first of its rule's fields let go. */
  function DetachTable(table: Table, fields: set<string>): Table {
    map pk | pk in table :: DetachRow(table[pk], fields)
  }

  /** The tables with the given ones detached. */
  function DetachIn(tables: Tables, policy: map<string, Rule>, done: set<string>): Tables {
    map t | t in tables :: if t in done && t in policy then DetachTable(tables[t], policy[t].detach) else tables[t]
  }

  lemma DetachInAll(tables: Tables, policy: map<string, Rule>)
    ensures DetachIn(tables, policy, {}) == tables
    ensures DetachIn(tables, policy, policy.Keys) == Detach(tables, policy)
  {
    forall t | t in tables && t in policy
      ensures DetachTable(tables[t], policy[t].detach) == map pk | pk in tables[t] ::
                DetachRow(tables[t][pk], policy[t].detach)
    {
    }
  }

  lemma DetachInOne(tables: Tables, policy: map<string, Rule>, done: set<string>, t: string)
    requires t in tables && t in policy && t !in done
    ensures DetachIn(tables, policy, done)[t] == tables[t]
    ensures DetachIn(tables, policy, done)[t := DetachTable(tables[t], policy[t].detach)]
            == DetachIn(tables, policy, done + {t})
  {
  }

  lemma DetachedOne(tables: Tables, policy: map<string, Rule>, done: set<string>, t: string,
                    before: map<(string, string), nat>, after: map<(string, string), nat>)
    requires t in tables && t in policy && t !in done && DetachedCounts(tables, policy, done, before)
    requires SameElsewhere(before, after, t)
    requires forall f :: f in policy[t].detach ==> At(after, (t, f)) == |Pointing(tables[t], f)|
    ensures DetachedCounts(tables, policy, done + {t}, after)
  {
    forall k: (string, string) | k in after ensures k.0 in done + {t} {
      if k.0 != t { assert k in before; }
    }
    forall u, f | u in done && u in tables && u in policy && f in policy[u].detach
      ensures At(after, (u, f)) == |Pointing(tables[u], f)|
    {
      assert (u, f) in after <==> (u, f) in before;
    }
  }

  /** The first `i` fields of a table are counted, and nothing else has changed. */
  ghost predicate FieldsCounted(start: Table, t: string, fields: seq<string>, i: nat,
                                before: map<(string, string), nat>, detached: map<(string, string), nat>)
  {
    && i <= |fields| && SameElsewhere(before, detached, t)
    && (forall f :: f in fields[i..] ==> (t, f) !in detached)
    && (forall f :: f in fields[..i] ==> At(detached, (t, f)) == |Pointing(start, f)|)
  }

  lemma FieldCounted(start: Table, t: string, fields: seq<string>, i: nat, before: map<(string, string), nat>,
                     detached: map<(string, string), nat>)
    requires i < |fields| && StrictlySorted(fields) && FieldsCounted(start, t, fields, i, before, detached)
    ensures var n := |Pointing(start, fields[i])|;
            && (n > 0 ==> FieldsCounted(start, t, fields, i + 1, before, detached[(t, fields[i]) := n]))
            && (n == 0 ==> FieldsCounted(start, t, fields, i + 1, before, detached))
  {
    var f := fields[i];
    assert fields[i..] == [f] + fields[i + 1..] && fields[..i + 1] == fields[..i] + [f];
    assert f !in fields[i + 1..];
  }

  /** What stands and what was counted once some tables have let go. */
  ghost predicate DetachedSoFar(start: Tables, policy: map<string, Rule>, done: set<string>, now: Tables,
                                detached: map<(string, string), nat>)
  {
    now == DetachIn(start, policy, done) && DetachedCounts(start, policy, done, detached)
  }

  lemma DetachStarts(start: Tables, policy: map<string, Rule>, labels: seq<string>, i: nat, now: Tables,
                     detached: map<(string, string), nat>)
    requires i < |labels| && StrictlySorted(labels) && labels[i] in start && labels[i] in policy
    requires DetachedSoFar(start, policy, Elements(labels[..i]), now, detached)
    ensures labels[i] in now && now[labels[i]] == start[labels[i]] && forall f :: (labels[i], f) !in detached
  {
    assert labels[i] !in Elements(labels[..i]);
    DetachInOne(start, policy, Elements(labels[..i]), labels[i]);
  }

  lemma DetachStep(start: Tables, policy: map<string, Rule>, labels: seq<string>, i: nat, now: Tables,
                   before: map<(string, string), nat>, next: Tables, after: map<(string, string), nat>)
    requires i < |labels| && StrictlySorted(labels) && labels[i] in start && labels[i] in policy
    requires DetachedSoFar(start, policy, Elements(labels[..i]), now, before)
    requires labels[i] in now && next == now[labels[i] := DetachTable(now[labels[i]], policy[labels[i]].detach)]
    requires SameElsewhere(before, after, labels[i])
    requires forall f :: f in policy[labels[i]].detach ==>
               At(after, (labels[i], f)) == |Pointing(start[labels[i]], f)|
    ensures DetachedSoFar(start, policy, Elements(labels[..i + 1]), next, after)
  {
    OneMore(labels, i);
    assert labels[i] !in Elements(labels[..i]);
    DetachInOne(start, policy, Elements(labels[..i]), labels[i]);
    DetachedOne(start, policy, Elements(labels[..i]), labels[i], before, after);
  }

  ghost predicate SameElsewhere(a: map<(string, string), nat>, b: map<(string, string), nat>, t: string) {
    forall k: (string, string) :: k.0 != t ==> (k in a <==> k in b) && (k in b ==> a[k] == b[k])
  }

  class Warehouse {
    const models: map<string, Model>
    const policy: map<string, Rule>
    var tables: Tables

    constructor (models: map<string, Model>, policy: map<string, Rule>, tables: Tables)
      ensures this.models == models && this.policy == policy && this.tables == tables
    {
      this.models, this.policy, this.tables := models, policy, tables;
    }

    method CountAll() returns (counts: map<string, nat>)
      requires tables.Keys == models.Keys
      ensures counts == Counts(tables)
    {
      var labels := Sorted(models.Keys);
      counts := map[];
      CountsOfAll(tables);
      assert Elements(labels[..0]) == {};
      for i := 0 to |labels|
        invariant counts == CountsIn(tables, Elements(labels[..i]))
      {
        CountsOneMore(tables, labels, i);
        counts := counts[labels[i] := |tables[labels[i]]|];
      }
      AllOf(labels, models.Keys);
    }

    method DetachOne(t: string, rule: Rule, before: map<(string, string), nat>)
      returns (detached: map<(string, string), nat>)
      requires t in tables && forall f :: (t, f) !in before
      modifies this`tables
      ensures tables == old(tables)[t := DetachTable(old(tables)[t], rule.detach)]
      ensures SameElsewhere(before, detached, t)
      ensures forall f :: f in rule.detach ==>
                At(detached, (t, f)) == |Pointing(old(tables)[t], f)|
    {
      detached := before;
      var fields := Sorted(rule.detach);
      ghost var start := tables[t];
      DetachNothing(start);
      assert Elements(fields[..0]) == {} && tables == tables[t := start];
      for i := 0 to |fields|
        invariant tables == old(tables)[t := DetachTable(start, Elements(fields[..i]))]
        invariant FieldsCounted(start, t, fields, i, before, detached)
      {
        var f := fields[i];
        DetachMore(start, fields, i);
        FieldCounted(start, t, fields, i, before, detached);
        var n := |Pointing(tables[t], f)|;
        tables := tables[t := DetachTable(tables[t], {f})];
        if n > 0 {
          detached := detached[(t, f) := n];
        }
      }
      assert fields[..|fields|] == fields && Elements(fields) == rule.detach;
    }

    method DetachAll() returns (detached: map<(string, string), nat>)
      requires tables.Keys == models.Keys == policy.Keys
      modifies this`tables
      ensures tables == Detach(old(tables), policy)
      ensures DetachedCounts(old(tables), policy, policy.Keys, detached)
    {
      var labels := Sorted(models.Keys);
      detached := map[];
      DetachInAll(tables, policy);
      assert Elements(labels[..0]) == {};
      for i := 0 to |labels|
        invariant DetachedSoFar(old(tables), policy, Elements(labels[..i]), tables, detached)
      {
        ghost var now, counted := tables, detached;
        DetachStarts(old(tables), policy, labels, i, now, counted);
        detached := DetachOne(labels[i], policy[labels[i]], detached);
        DetachStep(old(tables), policy, labels, i, now, counted, tables, detached);
      }
      AllOf(labels, models.Keys);
    }

    method EmptyDoomed()
      requires tables.Keys == models.Keys
      modifies this`tables
      ensures tables == Emptied(old(tables), Doomed(models, policy))
    {
      var order := DeleteOrder(models, Doomed(models, policy));
      assert Elements(order[..0]) == {} && Emptied(tables, {}) == tables;
      for i := 0 to |order|
        invariant tables == Emptied(old(tables), Elements(order[..i]))
      {
        EmptiedOneMore(old(tables), order, i);
        tables := if order[i] in tables then tables[order[i] := map[]] else tables;
      }
      assert order[..|order|] == order;
    }

    /** The mixed tables, in name order, each with its cascade. */
    method DeleteMixedRows(selected: map<string, set<int>>)
      returns (cascade: map<string, nat>, failure: Option<Failure>)
      modifies this`tables
      ensures DeleteMixed(Mixed(old(tables), map[]), models, policy, Sorted(models.Keys), selected)
           == (if failure.None? then Ok(Mixed(tables, cascade)) else Err(failure.value))
    {
      var labels := Sorted(models.Keys);
      cascade, failure := map[], None;
      for i := 0 to |labels|
        invariant DeleteMixed(Mixed(tables, cascade), models, policy, labels[i..], selected)
               == DeleteMixed(Mixed(old(tables), map[]), models, policy, labels, selected)
      {
        var t := labels[i];
        assert labels[i..][1..] == labels[i+1..];
        if t in selected && selected[t] != {} {
          var seeds := Seeds(tables, t, selected[t]);
          assert seeds <= AllRows(tables);
          var victims := Collect(tables, models, seeds);
          if Referrers(tables, models, victims, Protect) != {} {
            return cascade, Some(ProtectedRows);
          }
          cascade := Counted(cascade, policy, victims, t);
          tables := Without(tables, models, victims);
        }
      }
    }

    /** Detach, empty and delete: the state after the mixed tables. */
    method Carry(selected: map<string, set<int>>)
      returns (detached: map<(string, string), nat>, cascade: map<string, nat>, failure: Option<Failure>)
      requires tables.Keys == models.Keys == policy.Keys
      modifies this`tables
      ensures DetachedCounts(old(tables), policy, policy.Keys, detached)
      ensures DeleteMixed(Mixed(Purged(old(tables), models, policy), map[]), models, policy, Sorted(models.Keys),
                          selected)
           == (if failure.None? then Ok(Mixed(tables, cascade)) else Err(failure.value))
    {
      detached := DetachAll();
      EmptyDoomed();
      cascade, failure := DeleteMixedRows(selected);
    }

    /** The audit of sizes names, in name order, exactly the tables that did not end as promised. */
    method Audit(ghost before: Tables, report: Report) returns (broken: seq<Breach>)
      requires report.before == Counts(before) && report.after == Counts(tables) && before.Keys == tables.Keys
      ensures forall t :: NamedIn(broken, t) <==> Unexpected(policy, before, Mixed(tables, report.cascade), t)
      ensures StrictlySorted(TablesOf(broken)) && forall b :: b in broken ==> TrueBreach(before, tables, b)
      ensures broken == [] <==> forall t :: t in policy ==>
                !Unexpected(policy, before, Mixed(tables, report.cascade), t)
    {
      var labels := Sorted(policy.Keys);
      ghost var st := Mixed(tables, report.cascade);
      broken := [];
      for i := 0 to |labels|
        invariant BrokenSoFar(policy, before, st, labels, i, broken)
      {
        var found := AuditTable(before, report, labels[i]);
        BrokenMore(policy, before, st, labels, i, broken, found);
        broken := broken + found;
      }
      BrokenAll(policy, before, st, labels, broken);
    }

    /** One row of the report. */
    method AuditTable(ghost before: Tables, report: Report, t: string) returns (found: seq<Breach>)
      requires report.before == Counts(before) && report.after == Counts(tables) && before.Keys == tables.Keys
      requires t in policy
      ensures FoundOf(policy, before, Mixed(tables, report.cascade), t, found)
    {
      found := [];
      if t in report.before {
        var size, left := report.before[t], report.after[t];
        if policy[t].action == Keep && left != size - Get(report.cascade, t) {
          found := found + [Changed(t, size, left)];
        }
        if policy[t].action == Purge && left != 0 {
          found := found + [LeftOver(t, left)];
        }
      }
    }

    /** The steps inside the transaction, up to and with the audit. */
    method Attempt() returns (report: Report, failure: Option<Failure>, broken: seq<Breach>)
      requires tables.Keys == models.Keys == policy.Keys
      modifies this`tables
      ensures failure.Some? <==> Transaction(old(tables), models, policy).Err?
      ensures failure.Some? ==> Transaction(old(tables), models, policy).error == failure.value
      ensures failure.None? ==> Transaction(old(tables), models, policy) == Ok(Mixed(tables, report.cascade))
      ensures failure.None? ==> Reported(old(tables), tables, policy, report)
    {
      var snapshot := tables;
      var before := CountAll();
      var selected := Selected(models, policy, tables);
      var detached, cascade;
      detached, cascade, failure := Carry(selected);
      report, broken := Report(before, map[], cascade, detached), [];
      if failure.None? {
        MixedKeys(snapshot, models, policy, Mixed(tables, cascade));
        if !Consistent(tables, models) {
          failure := Some(BrokenConstraint);
        } else {
          var after := CountAll();
          report := report.(after := after);
          broken := Audit(snapshot, report);
          if broken != [] {
            failure := Some(KeptTableChanged);
          }
        }
        Audited(snapshot, models, policy, Mixed(tables, cascade), failure);
      }
    }

    /** The run: refused, aborted or done; only an applied and successful run changes the tables. */
    method Run(apply: bool) returns (outcome: Outcome)
      requires tables.Keys == models.Keys
      modifies this`tables
      ensures outcome.Refused? <==> !PolicyAccepts(models, policy)
      ensures !outcome.Done? || !apply ==> tables == old(tables)
      ensures PolicyAccepts(models, policy) ==>
                match Transaction(old(tables), models, policy)
                case Err(e) => outcome.Aborted? && outcome.failure == e
                case Ok(st) =>
                  && outcome.Done? && outcome.report.cascade == st.cascade && (apply ==> tables == st.tables)
                  && Reported(old(tables), st.tables, policy, outcome.report)
    {
      var problems := CheckPolicy(models, policy);
      if problems != [] {
        return Refused(problems);
      }
      var snapshot := tables;
      var report, failure, broken := Attempt();
      outcome := if failure.Some? then Aborted(failure.value, broken) else Done(report);
      if failure.Some? || !apply {
        tables := snapshot;
      }
    }
  }

  // ---- The audit of sizes ----

  function TablesOf(broken: seq<Breach>): seq<string> {
    seq(|broken|, i requires 0 <= i < |broken| => broken[i].table)
  }

  predicate NamedIn(broken: seq<Breach>, t: string) {
    exists b :: b in broken && b.table == t
  }

  /** The sizes given are those of the table. */
  predicate TrueBreach(before: Tables, after: Tables, b: Breach) {
    && b.table in before && b.table in after && b.after == |after[b.table]|
    && (b.Changed? ==> b.before == |before[b.table]|)
  }

  /** What the audit knows after its first `i` tables. */
  ghost predicate BrokenSoFar(policy: map<string, Rule>, before: Tables, st: Mixed, labels: seq<string>, i: nat,
                              broken: seq<Breach>) {
    && i <= |labels| && labels == Sorted(policy.Keys)
    && (forall t :: NamedIn(broken, t) <==> t in labels[..i] && Unexpected(policy, before, st, t))
    && StrictlySorted(TablesOf(broken)) && forall b :: b in broken ==> TrueBreach(before, st.tables, b)
  }

  /** What is to be said of one table. */
  predicate FoundOf(policy: map<string, Rule>, before: Tables, st: Mixed, t: string, found: seq<Breach>) {
    if Unexpected(policy, before, st, t)
    then |found| == 1 && found[0].table == t && TrueBreach(before, st.tables, found[0])
    else found == []
  }

  lemma BrokenMore(policy: map<string, Rule>, before: Tables, st: Mixed, labels: seq<string>, i: nat,
                   broken: seq<Breach>, found: seq<Breach>)
    requires i < |labels| && BrokenSoFar(policy, before, st, labels, i, broken)
    requires FoundOf(policy, before, st, labels[i], found)
    ensures BrokenSoFar(policy, before, st, labels, i + 1, broken + found)
  {
    assert labels[..i + 1] == labels[..i] + [labels[i]];
    if found == [] {
      assert broken + found == broken;
    } else {
      assert found == [found[0]];
      OneMoreBroken(policy, before, st, labels, i, broken, found[0]);
    }
  }

  lemma OneMoreBroken(policy: map<string, Rule>, before: Tables, st: Mixed, labels: seq<string>, i: nat,
                      broken: seq<Breach>, b: Breach)
    requires i < |labels| && BrokenSoFar(policy, before, st, labels, i, broken)
    requires b.table == labels[i] && TrueBreach(before, st.tables, b) && Unexpected(policy, before, st, labels[i])
    ensures BrokenSoFar(policy, before, st, labels, i + 1, broken + [b])
  {
    var more := broken + [b];
    assert labels[..i + 1] == labels[..i] + [labels[i]];
    forall t ensures NamedIn(more, t) <==> NamedIn(broken, t) || t == labels[i] {
      if x :| x in broken && x.table == t { assert x in more; }
      if t == labels[i] { assert b in more; }
    }
    forall j | 0 <= j < |broken| ensures StrLt(broken[j].table, labels[i]) {
      assert broken[j] in broken && NamedIn(broken, broken[j].table);
      var k :| 0 <= k < i && labels[k] == broken[j].table;
    }
    assert TablesOf(more) == TablesOf(broken) + [labels[i]];
  }

  lemma BrokenAll(policy: map<string, Rule>, before: Tables, st: Mixed, labels: seq<string>, broken: seq<Breach>)
    requires BrokenSoFar(policy, before, st, labels, |labels|, broken)
    ensures forall t :: NamedIn(broken, t) <==> Unexpected(policy, before, st, t)
    ensures broken == [] <==> forall t :: t in policy ==> !Unexpected(policy, before, st, t)
  {
    assert labels[..|labels|] == labels;
    if broken != [] { assert NamedIn(broken, broken[0].table); }
  }

  /** The counts of a finished run. */
  ghost predicate Reported(before: Tables, after: Tables, policy: map<string, Rule>, report: Report) {
    report.before == Counts(before) && report.after == Counts(after)
    && DetachedCounts(before, policy, policy.Keys, report.detached)
  }

  /** What the constraint check and the audit found decides the transaction. */
  lemma Audited(tables: Tables, models: map<string, Model>, policy: map<string, Rule>, st: Mixed,
                failure: Option<Failure>)
    requires AfterMixed(tables, models, policy) == Ok(st)
    requires failure == (if !Consistent(st.tables, models) then Some(BrokenConstraint)
                         else if exists t :: t in policy && Unexpected(policy, tables, st, t)
                         then Some(KeptTableChanged) else None)
    ensures Transaction(tables, models, policy) == if failure.None? then Ok(st) else Err(failure.value)
  {
  }

  lemma DetachNothing(table: Table)
    ensures DetachTable(table, {}) == table
  {
    assert forall pk :: pk in table ==> DetachRow(table[pk], {}).refs == table[pk].refs;
  }

  lemma DetachMore(start: Table, fields: seq<string>, i: nat)
    requires i < |fields| && StrictlySorted(fields)
    ensures var now := DetachTable(start, Elements(fields[..i]));
            && DetachTable(now, {fields[i]}) == DetachTable(start, Elements(fields[..i+1]))
            && Pointing(now, fields[i]) == Pointing(start, fields[i])
  {
    OneMore(fields, i);
    DetachTwice(start, Elements(fields[..i]), fields[i]);
  }

  lemma DetachTwice(start: Table, done: set<string>, f: string)
    requires f !in done
    ensures DetachTable(DetachTable(start, done), {f}) == DetachTable(start, done + {f})
    ensures Pointing(DetachTable(start, done), f) == Pointing(start, f)
  {
    var now, next := DetachTable(start, done), DetachTable(start, done + {f});
    forall pk | pk in start ensures DetachRow(now[pk], {f}) == next[pk] {
      assert DetachRow(now[pk], {f}).refs == next[pk].refs;
    }
    forall pk ensures pk in Pointing(now, f) <==> pk in Pointing(start, f) {
      if pk in start { assert now[pk] == DetachRow(start[pk], done); }
    }
  }

  lemma MixedKeys(tables: Tables, models: map<string, Model>, policy: map<string, Rule>, st: Mixed)
    requires AfterMixed(tables, models, policy) == Ok(st)
    ensures st.tables.Keys == tables.Keys
  {
    MixedPartGone(tables, models, policy, st);
  }
}
