/** Emptying the rehearsal's tables and keeping the house's: the policy check and the transaction. */
module SyntheticPurge {
  import opened Texts
  import opened PurgeOrder

  datatype Action = Keep | Purge | PurgeRows

  /** A row: its foreign keys by field, and the flags a selector may look at. */
  datatype Row = Row(refs: map<string, Option<int>>, flags: set<string>)

  type Table = map<int, Row>
  type Tables = map<string, Table>

  /** One policy line; `rows` selects what leaves a mixed table. */
  datatype Rule = Rule(action: Action, detach: set<string>, rows: Tables -> set<int>)

  // ---- The policy check ----

  datatype Problem =
    | Unclassified(table: string)
    | Stale(table: string)
    | DanglingField(table: string, field: string)

  /** A kept table's field that points into a table to be emptied and is not detached. */
  predicate Dangles(models: map<string, Model>, policy: map<string, Rule>, table: string, field: string) {
    && table in models && table in policy && policy[table].action == Keep
    && field in models[table]
    && models[table][field].target in policy && policy[models[table][field].target].action == Purge
    && field !in policy[table].detach
  }

  ghost predicate PolicyAccepts(models: map<string, Model>, policy: map<string, Rule>) {
    && models.Keys == policy.Keys
    && forall t, f :: !Dangles(models, policy, t, f)
  }

  /** Every problem there is; none exactly when the policy is accepted. */
  method CheckPolicy(models: map<string, Model>, policy: map<string, Rule>) returns (problems: seq<Problem>)
    ensures problems == [] <==> PolicyAccepts(models, policy)
    ensures forall t, f :: DanglingField(t, f) in problems <==> Dangles(models, policy, t, f)
    ensures MismatchesOf(models, policy) <= problems
  {
    problems := Mismatches(models, policy);
    ghost var first := problems;
    var labels := Sorted(models.Keys);
    for i := 0 to |labels|
      invariant first <= problems
      invariant NamesDangling(models, policy, labels[..i], problems)
      invariant problems == first || SomeDangling(problems)
    {
      ghost var before := problems;
      problems := CheckTable(models, policy, labels[i], problems);
      DanglingMore(models, policy, labels, i, before, problems);
    }
    assert labels[..|labels|] == labels;
  }

  /** The pointers reported are those of the given tables that dangle. */
  ghost predicate NamesDangling(models: map<string, Model>, policy: map<string, Rule>, tables: seq<string>,
                                problems: seq<Problem>)
  {
    forall t, f :: DanglingField(t, f) in problems <==> t in tables && Dangles(models, policy, t, f)
  }

  ghost predicate SomeDangling(problems: seq<Problem>) {
    exists t, f :: DanglingField(t, f) in problems
  }

  lemma DanglingMore(models: map<string, Model>, policy: map<string, Rule>, labels: seq<string>, i: nat,
                     before: seq<Problem>, after: seq<Problem>)
    requires i < |labels| && NamesDangling(models, policy, labels[..i], before)
    requires forall t, f :: DanglingField(t, f) in after <==>
               DanglingField(t, f) in before || (t == labels[i] && Dangles(models, policy, t, f))
    ensures NamesDangling(models, policy, labels[..i + 1], after)
  {
    assert labels[..i + 1] == labels[..i] + [labels[i]];
  }

  /** The tables without a policy line and the policy lines without a table, each in name order. */
  method Mismatches(models: map<string, Model>, policy: map<string, Rule>) returns (problems: seq<Problem>)
    ensures problems == MismatchesOf(models, policy) && NamesMismatches(models, policy, problems)
  {
    problems := [];
    var unclassified, stale := Sorted(models.Keys - policy.Keys), Sorted(policy.Keys - models.Keys);
    for i := 0 to |unclassified|
      invariant problems == UnclassifiedOf(unclassified[..i])
    {
      problems := problems + [Unclassified(unclassified[i])];
    }
    assert unclassified[..|unclassified|] == unclassified;
    for i := 0 to |stale|
      invariant problems == UnclassifiedOf(unclassified) + StaleOf(stale[..i])
    {
      problems := problems + [Stale(stale[i])];
    }
    assert stale[..|stale|] == stale;
    MismatchesNamed(models, policy);
  }

  /** Exactly these problems, and none when tables and policy match. */
  ghost predicate NamesMismatches(models: map<string, Model>, policy: map<string, Rule>, problems: seq<Problem>) {
    && (forall p :: p in problems ==> !p.DanglingField?)
    && (forall t :: Unclassified(t) in problems <==> t in models && t !in policy)
    && (forall t :: Stale(t) in problems <==> t in policy && t !in models)
    && (problems == [] <==> models.Keys == policy.Keys)
  }

  function MismatchesOf(models: map<string, Model>, policy: map<string, Rule>): seq<Problem> {
    UnclassifiedOf(Sorted(models.Keys - policy.Keys)) + StaleOf(Sorted(policy.Keys - models.Keys))
  }

  function UnclassifiedOf(labels: seq<string>): seq<Problem> {
    seq(|labels|, i requires 0 <= i < |labels| => Unclassified(labels[i]))
  }

  function StaleOf(labels: seq<string>): seq<Problem> {
    seq(|labels|, i requires 0 <= i < |labels| => Stale(labels[i]))
  }

  lemma MismatchesNamed(models: map<string, Model>, policy: map<string, Rule>)
    ensures NamesMismatches(models, policy, MismatchesOf(models, policy))
  {
    var unclassified, stale := Sorted(models.Keys - policy.Keys), Sorted(policy.Keys - models.Keys);
    ProblemsListed(unclassified, stale);
    assert |MismatchesOf(models, policy)| == |unclassified| + |stale|;
    assert unclassified == [] <==> models.Keys <= policy.Keys by { NoneSorted(models.Keys - policy.Keys); }
    assert stale == [] <==> policy.Keys <= models.Keys by { NoneSorted(policy.Keys - models.Keys); }
  }

  lemma NoneSorted(s: set<string>)
    ensures Sorted(s) == [] <==> s == {}
  {
    if s != {} {
      var x :| x in s;
      assert x in Sorted(s);
    }
  }

  lemma ProblemsListed(unclassified: seq<string>, stale: seq<string>)
    ensures var problems := UnclassifiedOf(unclassified) + StaleOf(stale);
            && (forall p :: p in problems ==> !p.DanglingField?)
            && (forall t :: Unclassified(t) in problems <==> t in unclassified)
            && (forall t :: Stale(t) in problems <==> t in stale)
  {
    var problems := UnclassifiedOf(unclassified) + StaleOf(stale);
    forall t | t in unclassified ensures Unclassified(t) in problems {
      var i :| 0 <= i < |unclassified| && unclassified[i] == t;
      assert problems[i] == Unclassified(t);
    }
    forall t | t in stale ensures Stale(t) in problems {
      var i :| 0 <= i < |stale| && stale[i] == t;
      assert problems[|unclassified| + i] == Stale(t);
    }
  }

  /** The fields of one table. */
  method CheckTable(models: map<string, Model>, policy: map<string, Rule>, table: string, before: seq<Problem>)
    returns (problems: seq<Problem>)
    requires table in models
    ensures before <= problems
    ensures forall t, f :: DanglingField(t, f) in problems <==>
              DanglingField(t, f) in before || (t == table && Dangles(models, policy, t, f))
    ensures problems == before || exists f :: DanglingField(table, f) in problems
  {
    problems := before;
    if table !in policy || policy[table].action != Keep {
      return;
    }
    var fields := Sorted(models[table].Keys);
    for i := 0 to |fields|
      invariant before <= problems
      invariant forall t, f :: DanglingField(t, f) in problems <==>
                  DanglingField(t, f) in before || (t == table && f in fields[..i] && Dangles(models, policy, t, f))
      invariant problems == before || exists f :: DanglingField(table, f) in problems
    {
      if Dangles(models, policy, table, fields[i]) {
        problems := problems + [DanglingField(table, fields[i])];
      }
    }
    assert fields[..|fields|] == fields;
  }

  // ---- The steps of the transaction, on values ----

  function DetachRow(row: Row, fields: set<string>): Row {
    row.(refs := map f | f in row.refs :: if f in fields then None else row.refs[f])
  }

  /** Kept tables let go of the pointers their rule lists. */
  function Detach(tables: Tables, policy: map<string, Rule>): Tables {
    map t | t in tables ::
      if t in policy then map pk | pk in tables[t] :: DetachRow(tables[t][pk], policy[t].detach) else tables[t]
  }

  /** Whole tables emptied. */
  function Emptied(tables: Tables, doomed: set<string>): Tables {
    map t | t in tables :: if t in doomed then map[] else tables[t]
  }

  function Doomed(models: map<string, Model>, policy: map<string, Rule>): set<string> {
    set t | t in models && t in policy && policy[t].action == Purge
  }

  type Key = (string, int)

  function AllRows(tables: Tables): set<Key> {
    set t, pk | t in tables && pk in tables[t] :: (t, pk)
  }

  /** Some foreign key of the row, deleting in the given way, points into `s`. */
  predicate Hits(row: Row, model: Model, s: set<Key>, how: OnDelete) {
    exists f :: f in model && f in row.refs && model[f].onDelete == how
                && row.refs[f].Some? && (model[f].target, row.refs[f].value) in s
  }

  function Referrers(tables: Tables, models: map<string, Model>, s: set<Key>, how: OnDelete): set<Key> {
    set t, pk | t in tables && t in models && pk in tables[t] && Hits(tables[t][pk], models[t], s, how) :: (t, pk)
  }

  /** The rows and everything that cascades from them. */
  function Cascaded(tables: Tables, models: map<string, Model>, s: set<Key>): (r: set<Key>)
    requires s <= AllRows(tables)
    ensures s <= r <= AllRows(tables)
    ensures Referrers(tables, models, r, Cascade) <= r
    decreases |AllRows(tables)| - |s|
  {
    var next := s + Referrers(tables, models, s, Cascade);
    if next == s then s else
      Subset(s, next);
      Subset(next, AllRows(tables));
      Cascaded(tables, models, next)
  }

  lemma Subset<T>(a: set<T>, b: set<T>)
    requires a <= b
    ensures |a| <= |b| && (a != b ==> |a| < |b|)
  {
    assert b == a + (b - a);
  }

  function Nulled(row: Row, model: Model, victims: set<Key>): Row {
    row.(refs := map f | f in row.refs ::
      if f in model && model[f].onDelete == SetNull && row.refs[f].Some?
        && (model[f].target, row.refs[f].value) in victims
      then None else row.refs[f])
  }

  /** The victims gone, and the pointers at them that ask for it set to null. */
  function Without(tables: Tables, models: map<string, Model>, victims: set<Key>): Tables {
    map t | t in tables ::
      map pk | pk in tables[t] && (t, pk) !in victims ::
        if t in models then Nulled(tables[t][pk], models[t], victims) else tables[t][pk]
  }

  function CountIn(victims: set<Key>, t: string): nat {
    |set k | k in victims && k.0 == t :: k.1|
  }

  function Get(m: map<string, nat>, k: string): nat {
    if k in m then m[k] else 0
  }

  /** Only kept tables other than the one being thinned have their losses counted. */
  predicate CountsLosses(policy: map<string, Rule>, own: string, t: string) {
    t != own && (t !in policy || policy[t].action == Keep)
  }

  /** The cascade counts after one table's deletion. */
  function Counted(cascade: map<string, nat>, policy: map<string, Rule>, victims: set<Key>, own: string)
    : map<string, nat> {
    map t | t in cascade.Keys + (set k | k in victims && CountsLosses(policy, own, k.0) :: k.0) ::
      if CountsLosses(policy, own, t) then Get(cascade, t) + CountIn(victims, t) else Get(cascade, t)
  }

  datatype Failure = ProtectedRows | BrokenConstraint | KeptTableChanged

  datatype Mixed = Mixed(tables: Tables, cascade: map<string, nat>)

  function Seeds(tables: Tables, t: string, pks: set<int>): set<Key> {
    set pk | t in tables && pk in tables[t] && pk in pks :: (t, pk)
  }

  /** The selected rows of one mixed table deleted, with their cascade. */
  function DeleteSelected(st: Mixed, models: map<string, Model>, policy: map<string, Rule>, t: string, pks: set<int>)
    : Result<Mixed, Failure>
  {
    var seeds := Seeds(st.tables, t, pks);
    assert seeds <= AllRows(st.tables);
    var victims := Cascaded(st.tables, models, seeds);
    if Referrers(st.tables, models, victims, Protect) != {} then Err(ProtectedRows)
    else Ok(Mixed(Without(st.tables, models, victims), Counted(st.cascade, policy, victims, t)))
  }

  function DeleteMixed(st: Mixed, models: map<string, Model>, policy: map<string, Rule>,
                       labels: seq<string>, selected: map<string, set<int>>): Result<Mixed, Failure>
    decreases |labels|
  {
    if labels == [] then Ok(st)
    else if labels[0] !in selected || selected[labels[0]]
      == {} then DeleteMixed(st, models, policy, labels[1..], selected)
    else
      var r := DeleteSelected(st, models, policy, labels[0], selected[labels[0]]);
      if r.Err? then r else DeleteMixed(r.value, models, policy, labels[1..], selected)
  }

  /** What leaves each mixed table, decided before anything is deleted. */
  function Selected(models: map<string, Model>, policy: map<string, Rule>, tables: Tables): map<string, set<int>> {
    map t | t in models && t in policy && policy[t].action == PurgeRows :: policy[t].rows(tables)
  }

  /** Every foreign key points at a row. */
  predicate Consistent(tables: Tables, models: map<string, Model>) {
    forall t, pk, f :: t in tables && t in models && pk in tables[t] && f in tables[t][pk].refs && f in models[t] ==>
      PointsAtRow(tables, models[t][f], tables[t][pk].refs[f])
  }

  predicate PointsAtRow(tables: Tables, link: Link, ref: Option<int>) {
    ref.None? || (link.target in tables && ref.value in tables[link.target])
  }

  /** A table that did not end as its action promises. */
  predicate Unexpected(policy: map<string, Rule>, before: Tables, st: Mixed, t: string) {
    t in policy && t in before && t in st.tables &&
    match policy[t].action
    case Keep => |st.tables[t]| != |before[t]| - Get(st.cascade, t)
    case Purge => |st.tables[t]| != 0
    case PurgeRows => false
  }

  /** The whole transaction on a snapshot. */
  function Transaction(tables: Tables, models: map<string, Model>, policy: map<string, Rule>): Result<Mixed, Failure> {
    var purged := Emptied(Detach(tables, policy), Doomed(models, policy));
    var r := DeleteMixed(Mixed(purged, map[]), models, policy, Sorted(models.Keys), Selected(models, policy, tables));
    if r.Err? then r
    else if !Consistent(r.value.tables, models) then Err(BrokenConstraint)
    else if exists t :: t in policy && Unexpected(policy, tables, r.value, t) then Err(KeptTableChanged)
    else r
  }
}
