/** What the purge transaction promises about the tables it leaves. */
module PurgeSafety {
  import opened Texts
  import opened PurgeOrder
  import opened SyntheticPurge

  // ---- The cascade is the least one ----

  lemma {:induction false} CascadedLeast(tables: Tables, models: map<string, Model>, s: set<Key>, c: set<Key>)
    requires s <= AllRows(tables) && s <= c && Referrers(tables, models, c, Cascade) <= c
    ensures Cascaded(tables, models, s) <= c
    decreases |AllRows(tables)| - |s|
  {
    var next := s + Referrers(tables, models, s, Cascade);
    if next != s {
      Subset(s, next);
      Subset(next, AllRows(tables));
      forall k | k in Referrers(tables, models, s, Cascade) ensures k in c { MoreHits(tables, models, s, c, k); }
      CascadedLeast(tables, models, next, c);
    }
  }

  lemma MoreHits(tables: Tables, models: map<string, Model>, s: set<Key>, c: set<Key>, k: Key)
    requires s <= c && k in Referrers(tables, models, s, Cascade)
    ensures k in Referrers(tables, models, c, Cascade)
  {
  }

  // ---- Deleting one mixed table's rows ----

  lemma RowsWithout(tables: Tables, models: map<string, Model>, victims: set<Key>)
    ensures AllRows(Without(tables, models, victims)) == AllRows(tables) - victims
    ensures Without(tables, models, victims).Keys == tables.Keys
  {
    var after := Without(tables, models, victims);
    assert forall t :: t in after ==> after[t].Keys == set pk | pk in tables[t] && (t, pk) !in victims;
  }

  /** Surviving rows keep the foreign keys that cascade; others may have been set to null. */
  ghost predicate SameCascades(models: map<string, Model>, a: Tables, b: Tables) {
    forall t, pk, f :: t in a && t in b && pk in a[t] && pk in b[t] && t in models && f in models[t]
                       && models[t][f].onDelete == Cascade ==>
      (f in a[t][pk].refs <==> f in b[t][pk].refs)
      && (f in a[t][pk].refs ==> a[t][pk].refs[f] == b[t][pk].refs[f])
  }

  lemma SameHits(models: map<string, Model>, a: Tables, b: Tables, s: set<Key>, k: Key)
    requires SameCascades(models, a, b) && k in AllRows(a) && k in AllRows(b)
    ensures k in Referrers(a, models, s, Cascade) <==> k in Referrers(b, models, s, Cascade)
  {
    var (t, pk) := k;
    if t in models {
      assert forall f :: f in models[t] && models[t][f].onDelete == Cascade ==>
        (f in a[t][pk].refs <==> f in b[t][pk].refs) && (f in a[t][pk].refs ==> a[t][pk].refs[f] == b[t][pk].refs[f]);
    }
  }

  /** After some deletions: exactly the rows that cascade from `s` are gone from `start`. */
  ghost predicate GoneExactly(models: map<string, Model>, start: Tables, tables: Tables, s: set<Key>) {
    && s <= AllRows(start) && tables.Keys == start.Keys
    && AllRows(tables) == AllRows(start) - Cascaded(start, models, s)
    && SameCascades(models, start, tables)
  }

  /** One more table's selected rows: again exactly what cascades from all the selected rows. */
  lemma GoneStep(models: map<string, Model>, start: Tables, tables: Tables, s: set<Key>, more: set<Key>)
    requires GoneExactly(models, start, tables, s) && more <= AllRows(start)
    ensures var victims := Cascaded(tables, models, more * AllRows(tables));
            GoneExactly(models, start, Without(tables, models, victims), s + more)
  {
    var victims := Cascaded(tables, models, more * AllRows(tables));
    CascadesAdd(models, start, tables, s, more);
    RowsWithout(tables, models, victims);
  }

  /** Cascading from all the rows at once is cascading from the first and then from what is left of the others. */
  lemma CascadesAdd(models: map<string, Model>, start: Tables, tables: Tables, s: set<Key>, more: set<Key>)
    requires GoneExactly(models, start, tables, s) && more <= AllRows(start)
    ensures Cascaded(start, models, s + more)
         == Cascaded(start, models, s) + Cascaded(tables, models, more * AllRows(tables))
  {
    LeftInAll(models, start, tables, s, more);
    AllInSum(models, start, tables, s, more);
  }

  lemma LeftInAll(models: map<string, Model>, start: Tables, tables: Tables, s: set<Key>, more: set<Key>)
    requires GoneExactly(models, start, tables, s) && more <= AllRows(start)
    ensures Cascaded(start, models, s) + Cascaded(tables, models, more * AllRows(tables))
            <= Cascaded(start, models, s + more)
  {
    var all := Cascaded(start, models, s + more);
    CascadeGrows(models, start, s, s + more);
    ClosedHere(models, start, tables, all);
    assert more * AllRows(tables) <= all;
    CascadedLeast(tables, models, more * AllRows(tables), all);
  }

  lemma ClosedHere(models: map<string, Model>, start: Tables, tables: Tables, c: set<Key>)
    requires SameCascades(models, start, tables) && AllRows(tables) <= AllRows(start)
    requires Referrers(start, models, c, Cascade) <= c
    ensures Referrers(tables, models, c, Cascade) <= c
  {
    forall k | k in Referrers(tables, models, c, Cascade) ensures k in c {
      assert k in AllRows(tables);
      SameHits(models, start, tables, c, k);
    }
  }

  lemma AllInSum(models: map<string, Model>, start: Tables, tables: Tables, s: set<Key>, more: set<Key>)
    requires GoneExactly(models, start, tables, s) && more <= AllRows(start)
    ensures Cascaded(start, models, s + more)
            <= Cascaded(start, models, s) + Cascaded(tables, models, more * AllRows(tables))
  {
    var d, victims := Cascaded(start, models, s), Cascaded(tables, models, more * AllRows(tables));
    forall k | k in Referrers(start, models, d + victims, Cascade) ensures k in d + victims {
      if k !in d {
        assert k in AllRows(start);
        SameHits(models, start, tables, victims, k);
      }
    }
    CascadedLeast(start, models, s + more, d + victims);
  }

  lemma CascadeGrows(models: map<string, Model>, tables: Tables, s: set<Key>, t: set<Key>)
    requires s <= t <= AllRows(tables)
    ensures Cascaded(tables, models, s) <= Cascaded(tables, models, t)
  {
    CascadedLeast(tables, models, s, Cascaded(tables, models, t));
  }

  // ---- Counting ----

  /** A table shrinks by exactly the victims it holds. */
  lemma TableShrinks(tables: Tables, models: map<string, Model>, victims: set<Key>, t: string)
    requires t in tables && victims <= AllRows(tables)
    ensures |Without(tables, models, victims)[t]| + CountIn(victims, t) == |tables[t]|
  {
    var gone := set k | k in victims && k.0 == t :: k.1;
    var left := Without(tables, models, victims)[t];
    assert forall pk :: pk in gone <==> (t, pk) in victims;
    forall pk | pk in gone ensures pk in tables[t] { assert (t, pk) in AllRows(tables); }
    assert left.Keys == tables[t].Keys - gone;
    assert |left.Keys| == |tables[t].Keys| - |gone|;
  }

  // ---- The invariant of the mixed deletions ----

  /** What stays true of the tables from the raw deletes on. */
  ghost predicate Safe(models: map<string, Model>, policy: map<string, Rule>, before: Tables, st: Mixed) {
    && st.tables.Keys == before.Keys
    && (forall t :: t in st.tables && t in policy && policy[t].action == Purge ==> st.tables[t] == map[])
    && (forall t :: t in st.tables && t in policy && policy[t].action == Keep ==>
          |st.tables[t]| + Get(st.cascade, t) == |before[t]|)
    && LetGo(models, policy, st.tables)
  }

  /** No kept row points into a table that is emptied. */
  ghost predicate LetGo(models: map<string, Model>, policy: map<string, Rule>, tables: Tables) {
    forall t, pk, f :: IntoDoomed(models, policy, t, f) && t in tables && pk in tables[t] && f in tables[t][pk].refs ==>
      tables[t][pk].refs[f].None?
  }

  predicate IntoDoomed(models: map<string, Model>, policy: map<string, Rule>, t: string, f: string) {
    && t in models && t in policy && policy[t].action == Keep && f in models[t]
    && models[t][f].target in policy && policy[models[t][f].target].action == Purge
  }

  lemma SafeAtFirst(models: map<string, Model>, policy: map<string, Rule>, before: Tables)
    requires PolicyAccepts(models, policy) && before.Keys == models.Keys
    ensures Safe(models, policy, before, Mixed(Emptied(Detach(before, policy), Doomed(models, policy)), map[]))
  {
    var tables := Emptied(Detach(before, policy), Doomed(models, policy));
    forall t | t in tables && policy[t].action == Keep ensures |tables[t]| == |before[t]| {
      assert tables[t].Keys == before[t].Keys;
      assert |tables[t]| == |tables[t].Keys|;
    }
    forall t, f | IntoDoomed(models, policy, t, f) ensures f in policy[t].detach {
      assert !Dangles(models, policy, t, f);
    }
  }

  lemma SafeStep(models: map<string, Model>, policy: map<string, Rule>, before: Tables, st: Mixed, t: string,
                 pks: set<int>)
    requires Safe(models, policy, before, st) && t in policy && policy[t].action != Keep
    requires DeleteSelected(st, models, policy, t, pks).Ok?
    ensures Safe(models, policy, before, DeleteSelected(st, models, policy, t, pks).value)
  {
    var victims := Cascaded(st.tables, models, Seeds(st.tables, t, pks));
    SafeWithout(models, policy, before, st, victims, t);
  }

  lemma SafeWithout(models: map<string, Model>, policy: map<string, Rule>, before: Tables, st: Mixed,
                    victims: set<Key>, t: string)
    requires Safe(models, policy, before, st) && t in policy && policy[t].action != Keep
             && victims <= AllRows(st.tables)
    ensures Safe(models, policy, before,
                 Mixed(Without(st.tables, models, victims), Counted(st.cascade, policy, victims, t)))
  {
    var tables, cascade := Without(st.tables, models, victims), Counted(st.cascade, policy, victims, t);
    forall u | u in st.tables && u in policy && policy[u].action == Keep
      ensures |tables[u]| + Get(cascade, u) == |before[u]|
    {
      TableShrinks(st.tables, models, victims, u);
      LossCounted(policy, st.cascade, victims, t, u);
    }
    LetGoWithout(models, policy, st.tables, victims);
  }

  /** The losses of a kept table are added to its count. */
  lemma LossCounted(policy: map<string, Rule>, cascade: map<string, nat>, victims: set<Key>, t: string, u: string)
    requires t != u && u in policy && policy[u].action == Keep
    ensures Get(Counted(cascade, policy, victims, t), u) == Get(cascade, u) + CountIn(victims, u)
  {
    if forall k :: k in victims ==> k.0 != u {
      assert (set k | k in victims && k.0 == u :: k.1) == {};
    }
  }

  lemma LetGoWithout(models: map<string, Model>, policy: map<string, Rule>, tables: Tables, victims: set<Key>)
    requires LetGo(models, policy, tables)
    ensures LetGo(models, policy, Without(tables, models, victims))
  {
  }

  /** Every selected row of the given tables, as keys. */
  function AllSeeds(tables: Tables, labels: seq<string>, selected: map<string, set<int>>): set<Key> {
    if labels == [] then {} else SeedsAt(tables, labels[0], selected) + AllSeeds(tables, labels[1..], selected)
  }

  function SeedsAt(tables: Tables, t: string, selected: map<string, set<int>>): set<Key> {
    if t in selected then Seeds(tables, t, selected[t]) else {}
  }

  lemma {:induction false} AllSeedsAreRows(tables: Tables, labels: seq<string>, selected: map<string, set<int>>)
    ensures AllSeeds(tables, labels, selected) <= AllRows(tables)
    decreases |labels|
  {
    if labels != [] { AllSeedsAreRows(tables, labels[1..], selected); }
  }

  lemma SeedsHere(models: map<string, Model>, start: Tables, tables: Tables, s: set<Key>, t: string, pks: set<int>)
    requires GoneExactly(models, start, tables, s)
    ensures Seeds(start, t, pks) <= AllRows(start)
    ensures Seeds(tables, t, pks) == Seeds(start, t, pks) * AllRows(tables)
  {
    forall k | k in Seeds(start, t, pks) * AllRows(tables) ensures k in Seeds(tables, t, pks) {}
    forall k | k in Seeds(tables, t, pks) ensures k in Seeds(start, t, pks) {
      assert k in AllRows(tables);
      assert k in AllRows(start);
    }
  }

  lemma {:induction false} MixedIsSafe(models: map<string, Model>, policy: map<string, Rule>, before: Tables,
                                       st: Mixed, labels: seq<string>, selected: map<string, set<int>>)
    requires Safe(models, policy, before, st)
    requires forall t :: t in selected ==> t in policy && policy[t].action == PurgeRows
    requires DeleteMixed(st, models, policy, labels, selected).Ok?
    ensures Safe(models, policy, before, DeleteMixed(st, models, policy, labels, selected).value)
    decreases |labels|
  {
    if labels != [] {
      var t := labels[0];
      if t !in selected || selected[t] == {} {
        MixedIsSafe(models, policy, before, st, labels[1..], selected);
      } else {
        SafeStep(models, policy, before, st, t, selected[t]);
        MixedIsSafe(models, policy, before, DeleteSelected(st, models, policy, t, selected[t]).value, labels[1..],
                    selected);
      }
    }
  }

  lemma {:induction false} MixedGone(models: map<string, Model>, policy: map<string, Rule>, start: Tables,
                                     st: Mixed, s: set<Key>, labels: seq<string>, selected: map<string, set<int>>)
    requires GoneExactly(models, start, st.tables, s)
    requires DeleteMixed(st, models, policy, labels, selected).Ok?
    ensures GoneExactly(models, start, DeleteMixed(st, models, policy, labels, selected).value.tables,
                        s + AllSeeds(start, labels, selected))
    decreases |labels|
  {
    if labels == [] {
      assert s + AllSeeds(start, labels, selected) == s;
    } else {
      var t := labels[0];
      var more := SeedsAt(start, t, selected);
      assert (s + more) + AllSeeds(start, labels[1..], selected) == s + AllSeeds(start, labels, selected);
      if t !in selected || selected[t] == {} {
        assert s + more == s;
        MixedGone(models, policy, start, st, s, labels[1..], selected);
      } else {
        GoneOne(models, policy, start, st, s, t, selected);
        MixedGone(models, policy, start, DeleteSelected(st, models, policy, t, selected[t]).value, s + more,
                  labels[1..], selected);
      }
    }
  }

  lemma GoneOne(models: map<string, Model>, policy: map<string, Rule>, start: Tables, st: Mixed, s: set<Key>,
                t: string, selected: map<string, set<int>>)
    requires GoneExactly(models, start, st.tables, s) && t in selected
    requires DeleteSelected(st, models, policy, t, selected[t]).Ok?
    ensures GoneExactly(models, start, DeleteSelected(st, models, policy, t, selected[t]).value.tables,
                        s + SeedsAt(start, t, selected))
  {
    SeedsHere(models, start, st.tables, s, t, selected[t]);
    GoneStep(models, start, st.tables, s, Seeds(start, t, selected[t]));
  }

  // ---- The theorems ----

  /** The tables right after the raw deletes. */
  function Purged(tables: Tables, models: map<string, Model>, policy: map<string, Rule>): Tables {
    Emptied(Detach(tables, policy), Doomed(models, policy))
  }

  /** The rows the policy selects, looked up before anything is deleted, that are still there after the raw deletes. */
  function Leaving(tables: Tables, models: map<string, Model>, policy: map<string, Rule>): (r: set<Key>)
    ensures r <= AllRows(Purged(tables, models, policy))
  {
    AllSeedsAreRows(Purged(tables, models, policy), Sorted(models.Keys), Selected(models, policy, tables));
    AllSeeds(Purged(tables, models, policy), Sorted(models.Keys), Selected(models, policy, tables))
  }

  /** The state after the mixed tables. */
  function AfterMixed(tables: Tables, models: map<string, Model>, policy: map<string, Rule>): Result<Mixed, Failure> {
    DeleteMixed(Mixed(Purged(tables, models, policy), map[]), models, policy, Sorted(models.Keys),
                Selected(models, policy, tables))
  }

  lemma MixedPart(tables: Tables, models: map<string, Model>, policy: map<string, Rule>, st: Mixed)
    requires PolicyAccepts(models, policy) && tables.Keys == models.Keys
    requires AfterMixed(tables, models, policy) == Ok(st)
    ensures Safe(models, policy, tables, st)
  {
    SafeAtFirst(models, policy, tables);
    MixedIsSafe(models, policy, tables, Mixed(Purged(tables, models, policy), map[]), Sorted(models.Keys),
                Selected(models, policy, tables));
  }

  lemma MixedPartGone(tables: Tables, models: map<string, Model>, policy: map<string, Rule>, st: Mixed)
    requires AfterMixed(tables, models, policy) == Ok(st)
    ensures GoneExactly(models, Purged(tables, models, policy), st.tables, Leaving(tables, models, policy))
  {
    var start := Purged(tables, models, policy);
    NothingGone(models, start);
    MixedGone(models, policy, start, Mixed(start, map[]), {}, Sorted(models.Keys), Selected(models, policy, tables));
    assert {} + Leaving(tables, models, policy) == Leaving(tables, models, policy);
  }

  lemma NothingGone(models: map<string, Model>, tables: Tables)
    ensures GoneExactly(models, tables, tables, {})
  {
    assert Referrers(tables, models, {}, Cascade) == {};
    assert {} + Referrers(tables, models, {}, Cascade) == {};
  }

  /**
   An accepted policy's transaction: no kept row points into an emptied table, emptied tables are
   empty, every kept table shrank by its recorded cascade, and the rows gone after the raw deletes
   are exactly those that cascade from the rows selected in the state before.
   */
  lemma PurgeIsSafe(tables: Tables, models: map<string, Model>, policy: map<string, Rule>, st: Mixed)
    requires PolicyAccepts(models, policy) && tables.Keys == models.Keys
    requires Transaction(tables, models, policy) == Ok(st)
    ensures Safe(models, policy, tables, st)
    ensures GoneExactly(models, Purged(tables, models, policy), st.tables, Leaving(tables, models, policy))
    ensures Consistent(st.tables, models)
  {
    TransactionSteps(tables, models, policy, st);
    MixedPart(tables, models, policy, st);
    MixedPartGone(tables, models, policy, st);
  }

  lemma TransactionSteps(tables: Tables, models: map<string, Model>, policy: map<string, Rule>, st: Mixed)
    requires Transaction(tables, models, policy) == Ok(st)
    ensures AfterMixed(tables, models, policy) == Ok(st) && Consistent(st.tables, models)
  {
  }

  /** The final audit of table sizes never fires: only protected rows or a broken key can abort the purge. */
  lemma AuditNeverFires(tables: Tables, models: map<string, Model>, policy: map<string, Rule>)
    requires PolicyAccepts(models, policy) && tables.Keys == models.Keys
    ensures Transaction(tables, models, policy) != Err(KeptTableChanged)
  {
    var r := AfterMixed(tables, models, policy);
    if r.Ok? {
      MixedPart(tables, models, policy, r.value);
    } else {
      DeleteFailsProtected(Mixed(Purged(tables, models, policy), map[]), models, policy, Sorted(models.Keys),
                           Selected(models, policy, tables));
    }
  }

  lemma {:induction false} DeleteFailsProtected(st: Mixed, models: map<string, Model>, policy: map<string, Rule>,
                                                labels: seq<string>, selected: map<string, set<int>>)
    requires DeleteMixed(st, models, policy, labels, selected).Err?
    ensures DeleteMixed(st, models, policy, labels, selected).error == ProtectedRows
    decreases |labels|
  {
    if labels[0] !in selected || selected[labels[0]] == {} {
      DeleteFailsProtected(st, models, policy, labels[1..], selected);
    } else if DeleteSelected(st, models, policy, labels[0], selected[labels[0]]).Ok? {
      DeleteFailsProtected(DeleteSelected(st, models, policy, labels[0], selected[labels[0]]).value,
                           models, policy, labels[1..], selected);
    }
  }

  // ---- When a foreign key is left dangling ----

  function Gone(start: Tables, now: Tables): set<Key> {
    AllRows(start) - AllRows(now)
  }

  predicate PointsInto(models: map<string, Model>, t: string, f: string, row: Row, s: set<Key>) {
    && t in models && f in models[t] && f in row.refs && row.refs[f].Some?
    && (models[t][f].target, row.refs[f].value) in s
  }

  /** A pointer at a row that is gone was set to null or ignored, as its field asks; every other one stayed. */
  predicate RefFollows(models: map<string, Model>, gone: set<Key>, t: string, f: string, was: Row, now: Row) {
    && was.flags == now.flags
    && (f in was.refs <==> f in now.refs)
    && (f in was.refs ==>
          if PointsInto(models, t, f, was, gone)
          then models[t][f].onDelete in {SetNull, DoNothing}
               && now.refs[f] == if models[t][f].onDelete == SetNull then None else was.refs[f]
          else now.refs[f] == was.refs[f])
  }

  ghost predicate RefsFollow(models: map<string, Model>, start: Tables, now: Tables) {
    && now.Keys == start.Keys && AllRows(now) <= AllRows(start)
    && forall t, pk, f :: t in now && pk in now[t] && t in start && pk in start[t] ==>
         RefFollows(models, Gone(start, now), t, f, start[t][pk], now[t][pk])
  }

  lemma RefsFollowStep(models: map<string, Model>, start: Tables, now: Tables, victims: set<Key>)
    requires RefsFollow(models, start, now) && victims <= AllRows(now)
    requires Referrers(now, models, victims, Cascade) <= victims && Referrers(now, models, victims, Protect) == {}
    ensures RefsFollow(models, start, Without(now, models, victims))
  {
    var next := Without(now, models, victims);
    RowsWithout(now, models, victims);
    assert Gone(start, next) == Gone(start, now) + victims;
    forall t, pk, f | t in next && pk in next[t] && t in start && pk in start[t]
      ensures RefFollows(models, Gone(start, next), t, f, start[t][pk], next[t][pk])
    {
      assert (t, pk) in AllRows(next);
      RefFollowsStep(models, now, victims, t, pk, f);
      assert RefFollows(models, Gone(start, now), t, f, start[t][pk], now[t][pk]);
    }
  }

  /** One deletion: neither a protecting nor a cascading key of a surviving row points at a victim. */
  lemma RefFollowsStep(models: map<string, Model>, now: Tables, victims: set<Key>, t: string, pk: int, f: string)
    requires victims <= AllRows(now) && t in now && pk in now[t] && (t, pk) !in victims
    requires Referrers(now, models, victims, Cascade) <= victims && Referrers(now, models, victims, Protect) == {}
    ensures RefFollows(models, victims, t, f, now[t][pk], Without(now, models, victims)[t][pk])
  {
    var row := now[t][pk];
    assert (t, pk) !in Referrers(now, models, victims, Cascade);
    assert (t, pk) !in Referrers(now, models, victims, Protect);
    if PointsInto(models, t, f, row, victims) {
      assert Hits(row, models[t], victims, models[t][f].onDelete);
    }
  }

  lemma {:induction false} MixedFollows(models: map<string, Model>, policy: map<string, Rule>, start: Tables,
                                        st: Mixed, labels: seq<string>, selected: map<string, set<int>>)
    requires RefsFollow(models, start, st.tables)
    requires DeleteMixed(st, models, policy, labels, selected).Ok?
    ensures RefsFollow(models, start, DeleteMixed(st, models, policy, labels, selected).value.tables)
    decreases |labels|
  {
    if labels != [] {
      var t := labels[0];
      if t !in selected || selected[t] == {} {
        MixedFollows(models, policy, start, st, labels[1..], selected);
      } else {
        var victims := Cascaded(st.tables, models, Seeds(st.tables, t, selected[t]));
        RefsFollowStep(models, start, st.tables, victims);
        MixedFollows(models, policy, start, DeleteSelected(st, models, policy, t, selected[t]).value, labels[1..],
                     selected);
      }
    }
  }

  /** A row that the raw deletes and the cascade from the selected rows leave in place, told from the state before. */
  predicate Survives(tables: Tables, models: map<string, Model>, policy: map<string, Rule>, k: Key) {
    var start := Purged(tables, models, policy);
    k in AllRows(start) && k !in Cascaded(start, models, Leaving(tables, models, policy))
  }

  /**
   A surviving row's pointer, as it was before the purge and not let go of, into an emptied table, or at a row
   that leaves with the mixed tables while the field asks for nothing to be done.
   */
  predicate Stranded(tables: Tables, models: map<string, Model>, policy: map<string, Rule>, t: string, pk: int,
                     f: string) {
    && Survives(tables, models, policy, (t, pk)) && t in tables && pk in tables[t]
    && t in models && f in models[t] && f in tables[t][pk].refs && tables[t][pk].refs[f].Some?
    && (t in policy ==> f !in policy[t].detach)
    && var link, v := models[t][f], tables[t][pk].refs[f].value;
       || link.target in Doomed(models, policy)
       || (link.onDelete == DoNothing && !Survives(tables, models, policy, (link.target, v)))
  }

  lemma SurvivorsLeft(tables: Tables, models: map<string, Model>, policy: map<string, Rule>, st: Mixed, k: Key)
    requires AfterMixed(tables, models, policy) == Ok(st)
    ensures Survives(tables, models, policy, k) <==> k in AllRows(st.tables)
  {
    MixedPartGone(tables, models, policy, st);
  }

  /** The keys hold after the purge exactly when no pointer is stranded. */
  lemma ConsistentExactly(tables: Tables, models: map<string, Model>, policy: map<string, Rule>, st: Mixed)
    requires Consistent(tables, models) && AfterMixed(tables, models, policy) == Ok(st)
    ensures Consistent(st.tables, models) <==> forall t, pk, f :: !Stranded(tables, models, policy, t, pk, f)
  {
    var start := Purged(tables, models, policy);
    assert Gone(start, start) == {};
    MixedFollows(models, policy, start, Mixed(start, map[]), Sorted(models.Keys), Selected(models, policy, tables));
    forall t, pk, f | t in st.tables && t in models && pk in st.tables[t] && f in st.tables[t][pk].refs
                      && f in models[t]
      ensures PointsAtRow(st.tables, models[t][f], st.tables[t][pk].refs[f])
         <==> !Stranded(tables, models, policy, t, pk, f)
    {
      StrandedExactly(tables, models, policy, st, t, pk, f);
    }
    forall t, pk, f | Stranded(tables, models, policy, t, pk, f)
      ensures t in st.tables && pk in st.tables[t] && f in st.tables[t][pk].refs
    {
      SurvivorsLeft(tables, models, policy, st, (t, pk));
      InStart(tables, models, policy, st.tables, t, pk);
      assert RefFollows(models, Gone(start, st.tables), t, f, start[t][pk], st.tables[t][pk]);
    }
  }

  /** A surviving row is one of the start, with the pointers it did not let go of. */
  lemma InStart(tables: Tables, models: map<string, Model>, policy: map<string, Rule>, after: Tables, t: string,
                pk: int)
    requires RefsFollow(models, Purged(tables, models, policy), after) && t in after && pk in after[t]
    ensures t in tables && pk in tables[t] && t !in Doomed(models, policy)
    ensures var start := Purged(tables, models, policy);
            && t in start && pk in start[t]
            && start[t][pk] == if t in policy then DetachRow(tables[t][pk], policy[t].detach) else tables[t][pk]
  {
    assert (t, pk) in AllRows(after);
    assert (t, pk) in AllRows(Purged(tables, models, policy));
  }

  lemma StrandedExactly(tables: Tables, models: map<string, Model>, policy: map<string, Rule>, st: Mixed,
                        t: string, pk: int, f: string)
    requires Consistent(tables, models) && AfterMixed(tables, models, policy) == Ok(st)
    requires RefsFollow(models, Purged(tables, models, policy), st.tables)
    requires t in st.tables && t in models && pk in st.tables[t] && f in st.tables[t][pk].refs && f in models[t]
    ensures PointsAtRow(st.tables, models[t][f], st.tables[t][pk].refs[f])
       <==> !Stranded(tables, models, policy, t, pk, f)
  {
    var start, link := Purged(tables, models, policy), models[t][f];
    InStart(tables, models, policy, st.tables, t, pk);
    SurvivorsLeft(tables, models, policy, st, (t, pk));
    var was, now := start[t][pk], st.tables[t][pk];
    assert RefFollows(models, Gone(start, st.tables), t, f, was, now);
    if was.refs[f].Some? {
      var v := was.refs[f].value;
      SurvivorsLeft(tables, models, policy, st, (link.target, v));
      assert PointsAtRow(tables, link, tables[t][pk].refs[f]);
      assert v in start[link.target] <==> link.target !in Doomed(models, policy);
      assert (link.target, v) in AllRows(start) <==> v in start[link.target];
      assert (link.target, v) in AllRows(st.tables) <==> v in st.tables[link.target];
    }
  }

  /** Where the policy is accepted, only a row of a thinned table can point into an emptied one. */
  lemma StrandedIsMixed(tables: Tables, models: map<string, Model>, policy: map<string, Rule>, t: string, pk: int,
                        f: string)
    requires PolicyAccepts(models, policy) && Stranded(tables, models, policy, t, pk, f)
    requires models[t][f].target in Doomed(models, policy)
    ensures policy[t].action == PurgeRows
  {
    assert !Dangles(models, policy, t, f);
  }

  // ---- What the report counts ----

  /** Only kept tables that lost rows are counted. */
  ghost predicate CountsKept(policy: map<string, Rule>, cascade: map<string, nat>) {
    forall t :: t in cascade ==> t in policy && policy[t].action == Keep && cascade[t] > 0
  }

  lemma VictimCounts(victims: set<Key>, k: Key)
    requires k in victims
    ensures CountIn(victims, k.0) > 0
  {
    var t, pk := k.0, k.1;
    var gone := set k | k in victims && k.0 == t :: k.1;
    assert pk in gone;
    assert CountIn(victims, t) == |gone|;
  }

  lemma CountedKept(policy: map<string, Rule>, tables: Tables, cascade: map<string, nat>, victims: set<Key>,
                    own: string)
    requires CountsKept(policy, cascade) && victims <= AllRows(tables) && tables.Keys == policy.Keys
    ensures CountsKept(policy, Counted(cascade, policy, victims, own))
  {
    var after := Counted(cascade, policy, victims, own);
    forall t | t in after ensures t in policy && policy[t].action == Keep && after[t] > 0 {
      if t !in cascade {
        var k :| k in victims && k.0 == t && CountsLosses(policy, own, t);
        assert k in AllRows(tables);
        VictimCounts(victims, k);
      }
    }
  }

  lemma {:induction false} MixedCountsKept(models: map<string, Model>, policy: map<string, Rule>, st: Mixed,
                                           labels: seq<string>, selected: map<string, set<int>>)
    requires CountsKept(policy, st.cascade) && st.tables.Keys == policy.Keys
    requires DeleteMixed(st, models, policy, labels, selected).Ok?
    ensures CountsKept(policy, DeleteMixed(st, models, policy, labels, selected).value.cascade)
    decreases |labels|
  {
    if labels != [] {
      var t := labels[0];
      if t !in selected || selected[t] == {} {
        MixedCountsKept(models, policy, st, labels[1..], selected);
      } else {
        var victims := Cascaded(st.tables, models, Seeds(st.tables, t, selected[t]));
        CountedKept(policy, st.tables, st.cascade, victims, t);
        MixedCountsKept(models, policy, DeleteSelected(st, models, policy, t, selected[t]).value, labels[1..],
                        selected);
      }
    }
  }

  /** The counts of an accepted purge are exactly the losses of the kept tables. */
  lemma CascadeExactly(tables: Tables, models: map<string, Model>, policy: map<string, Rule>, st: Mixed, t: string)
    requires PolicyAccepts(models, policy) && tables.Keys == models.Keys && t in tables
    requires AfterMixed(tables, models, policy) == Ok(st)
    ensures t in st.tables
    ensures t in st.cascade <==> policy[t].action == Keep && |st.tables[t]| != |tables[t]|
    ensures t in st.cascade ==> st.cascade[t] + |st.tables[t]| == |tables[t]|
  {
    MixedPart(tables, models, policy, st);
    AfterMixedCounts(tables, models, policy, st);
    SafeCounts(models, policy, tables, st, t);
  }

  lemma AfterMixedCounts(tables: Tables, models: map<string, Model>, policy: map<string, Rule>, st: Mixed)
    requires tables.Keys == policy.Keys && AfterMixed(tables, models, policy) == Ok(st)
    ensures CountsKept(policy, st.cascade)
  {
    var purged := Purged(tables, models, policy);
    assert purged.Keys == tables.Keys;
    MixedCountsKept(models, policy, Mixed(purged, map[]), Sorted(models.Keys), Selected(models, policy, tables));
  }

  lemma SafeCounts(models: map<string, Model>, policy: map<string, Rule>, before: Tables, st: Mixed, t: string)
    requires Safe(models, policy, before, st) && CountsKept(policy, st.cascade) && t in before && t in policy
    ensures t in st.tables
    ensures t in st.cascade <==> policy[t].action == Keep && |st.tables[t]| != |before[t]|
    ensures t in st.cascade ==> st.cascade[t] + |st.tables[t]| == |before[t]|
  {
  }

  // ---- The raw deletes, table by table ----

  /** No row of another table points into one of these. */
  ghost predicate PointedAtFromWithin(tables: Tables, models: map<string, Model>, labels: seq<string>) {
    forall t, pk, f :: t in tables && t !in labels && t in models && pk in tables[t] && f in tables[t][pk].refs
                       && f in models[t] && models[t][f].target in labels ==>
      tables[t][pk].refs[f].None?
  }

  /** Emptying tables with the referring ones first never leaves a key without its row, at no point on the way. */
  lemma EmptyingKeepsKeys(tables: Tables, models: map<string, Model>, order: seq<string>, i: nat)
    requires Consistent(tables, models) && ReferrersFirst(models, order) && i <= |order|
    requires PointedAtFromWithin(tables, models, order)
    ensures Consistent(Emptied(tables, Elements(order[..i])), models)
  {
    var now: Tables := Emptied(tables, Elements(order[..i]));
    forall t: string, pk: int, f: string | t in now && t in models && pk in now[t] && f in now[t][pk].refs
      && f in models[t]
      ensures PointsAtRow(now, models[t][f], now[t][pk].refs[f])
    {
      var link: Link, ref: Option<int> := models[t][f], now[t][pk].refs[f];
      assert PointsAtRow(tables, link, ref);
      assert t !in order[..i];
      if t in order { TargetStays(models, order, i, t, f); }
    }
  }

  /** What a table refers to is not emptied before it. */
  lemma TargetStays(models: map<string, Model>, order: seq<string>, i: nat, t: string, f: string)
    requires ReferrersFirst(models, order) && i <= |order| && t in order && t !in order[..i]
    requires t in models && f in models[t]
    ensures models[t][f].target !in order[..i]
  {
    var j :| 0 <= j < |order| && order[j] == t;
    assert forall x :: 0 <= x < i ==> order[..i][x] == order[x];
    assert RefersTo(models, t, models[t][f].target);
  }

  // ---- What a surviving row looks like ----

  /**
   A row after the purge and before it: nothing but pointers has changed, and a pointer only where its table lets
   go of the field, or where the field asks for null and pointed at a row that did not survive the mixed tables.
   */
  ghost predicate KeptRow(tables: Tables, models: map<string, Model>, policy: map<string, Rule>, t: string, was: Row,
                          now: Row)
  {
    && now.flags == was.flags && now.refs.Keys == was.refs.Keys
    && forall f :: f in was.refs ==> now.refs[f] == KeptRef(tables, models, policy, t, f, was.refs[f])
  }

  function KeptRef(tables: Tables, models: map<string, Model>, policy: map<string, Rule>, t: string, f: string,
                   ref: Option<int>): Option<int>
  {
    if LetsGo(policy, t, f) || SetToNull(tables, models, policy, t, f, ref) then None else ref
  }

  predicate LetsGo(policy: map<string, Rule>, t: string, f: string) {
    t in policy && f in policy[t].detach
  }

  /** The field asks for null, and the row it points at is one of the mixed tables' that leave. */
  predicate SetToNull(tables: Tables, models: map<string, Model>, policy: map<string, Rule>, t: string, f: string,
                      ref: Option<int>)
  {
    && t in models && f in models[t] && models[t][f].onDelete == SetNull && ref.Some?
    && var k := (models[t][f].target, ref.value);
       k in AllRows(Purged(tables, models, policy)) && !Survives(tables, models, policy, k)
  }

  /** The rows after the purge are those that survive, and each is what it was but for such pointers. */
  lemma SurvivorsKept(tables: Tables, models: map<string, Model>, policy: map<string, Rule>, st: Mixed)
    requires AfterMixed(tables, models, policy) == Ok(st)
    ensures st.tables.Keys == tables.Keys
    ensures forall t, pk :: t in tables ==> (Survives(tables, models, policy, (t, pk)) <==> pk in st.tables[t])
    ensures forall t, pk :: t in tables && pk in st.tables[t] ==>
              pk in tables[t] && KeptRow(tables, models, policy, t, tables[t][pk], st.tables[t][pk])
  {
    var start := Purged(tables, models, policy);
    MixedPartGone(tables, models, policy, st);
    assert Gone(start, start) == {};
    MixedFollows(models, policy, start, Mixed(start, map[]), Sorted(models.Keys), Selected(models, policy, tables));
    forall t, pk | t in tables ensures Survives(tables, models, policy, (t, pk)) <==> pk in st.tables[t] {
      SurvivorsLeft(tables, models, policy, st, (t, pk));
      assert (t, pk) in AllRows(st.tables) <==> pk in st.tables[t];
    }
    forall t, pk | t in tables && pk in st.tables[t]
      ensures pk in tables[t] && KeptRow(tables, models, policy, t, tables[t][pk], st.tables[t][pk])
    {
      RowKept(tables, models, policy, st, t, pk);
    }
  }

  lemma RowKept(tables: Tables, models: map<string, Model>, policy: map<string, Rule>, st: Mixed, t: string, pk: int)
    requires AfterMixed(tables, models, policy) == Ok(st)
    requires RefsFollow(models, Purged(tables, models, policy), st.tables) && t in st.tables && pk in st.tables[t]
    ensures t in tables && pk in tables[t]
    ensures KeptRow(tables, models, policy, t, tables[t][pk], st.tables[t][pk])
  {
    var start := Purged(tables, models, policy);
    var gone := Gone(start, st.tables);
    InStart(tables, models, policy, st.tables, t, pk);
    var was, at, now := tables[t][pk], start[t][pk], st.tables[t][pk];
    assert RefFollows(models, gone, t, "", at, now);
    forall f ensures f in now.refs <==> f in was.refs
             ensures f in was.refs ==> now.refs[f] == KeptRef(tables, models, policy, t, f, was.refs[f])
    {
      assert RefFollows(models, gone, t, f, at, now);
      if f in was.refs { RefKept(tables, models, policy, st, t, f, was, at, now); }
    }
  }

  lemma RefKept(tables: Tables, models: map<string, Model>, policy: map<string, Rule>, st: Mixed, t: string, f: string,
                was: Row, at: Row, now: Row)
    requires AfterMixed(tables, models, policy) == Ok(st) && f in was.refs
    requires at == if t in policy then DetachRow(was, policy[t].detach) else was
    requires RefFollows(models, Gone(Purged(tables, models, policy), st.tables), t, f, at, now)
    ensures f in now.refs && now.refs[f] == KeptRef(tables, models, policy, t, f, was.refs[f])
  {
    if t in models && f in models[t] && was.refs[f].Some? {
      SurvivorsLeft(tables, models, policy, st, (models[t][f].target, was.refs[f].value));
    }
  }

  // ---- When a protected row stops the purge ----

  /** What cascades from the rows selected in the first `n` tables. */
  function CascadeOf(start: Tables, models: map<string, Model>, labels: seq<string>, selected: map<string, set<int>>,
                     n: nat): set<Key>
    requires n <= |labels|
  {
    AllSeedsAreRows(start, labels[..n], selected);
    Cascaded(start, models, AllSeeds(start, labels[..n], selected))
  }

  /** A row still there when the table's turn comes points, by a protecting key, at what its cascade adds. */
  predicate Blocked(start: Tables, models: map<string, Model>, labels: seq<string>, selected: map<string, set<int>>,
                    i: nat)
    requires i < |labels|
  {
    var before, after := CascadeOf(start, models, labels, selected, i),
      CascadeOf(start, models, labels, selected, i + 1);
    Referrers(start, models, after - before, Protect) - before != {}
  }

  lemma {:induction false} AllSeedsJoin(tables: Tables, a: seq<string>, b: seq<string>, selected: map<string, set<int>>)
    ensures AllSeeds(tables, a + b, selected) == AllSeeds(tables, a, selected) + AllSeeds(tables, b, selected)
    decreases |a|
  {
    if a == [] {
      assert a + b == b;
    } else {
      AllSeedsJoin(tables, a[1..], b, selected);
      assert (a + b)[0] == a[0] && (a + b)[1..] == a[1..] + b;
    }
  }

  lemma SeedsMore(tables: Tables, labels: seq<string>, selected: map<string, set<int>>, i: nat)
    requires i < |labels|
    ensures AllSeeds(tables, labels[..i + 1], selected)
         == AllSeeds(tables, labels[..i], selected) + SeedsAt(tables, labels[i], selected)
  {
    assert labels[..i + 1] == labels[..i] + [labels[i]];
    AllSeedsJoin(tables, labels[..i], [labels[i]], selected);
    assert AllSeeds(tables, [labels[i]], selected)
           == SeedsAt(tables, labels[i], selected) + AllSeeds(tables, [], selected);
  }

  /** What the deletion of one mixed table removes is what its selected rows add to the cascade. */
  lemma VictimsAdded(models: map<string, Model>, start: Tables, now: Tables, labels: seq<string>,
                     selected: map<string, set<int>>, i: nat)
    requires i < |labels| && labels[i] in selected
    requires GoneExactly(models, start, now, AllSeeds(start, labels[..i], selected))
    ensures Cascaded(now, models, Seeds(now, labels[i], selected[labels[i]]))
         == CascadeOf(start, models, labels, selected, i + 1) - CascadeOf(start, models, labels, selected, i)
  {
    var s, more := AllSeeds(start, labels[..i], selected), SeedsAt(start, labels[i], selected);
    SeedsHere(models, start, now, s, labels[i], selected[labels[i]]);
    SeedsMore(start, labels, selected, i);
    CascadesAdd(models, start, now, s, more);
    assert more * AllRows(now) == Seeds(now, labels[i], selected[labels[i]]);
  }

  /** Protecting keys stay as they were at the start. */
  lemma SameProtectors(models: map<string, Model>, start: Tables, now: Tables, s: set<Key>, k: Key)
    requires RefsFollow(models, start, now)
    ensures k in Referrers(now, models, s, Protect) <==> k in Referrers(start, models, s, Protect) && k in AllRows(now)
  {
    var (t, pk) := k;
    if k in AllRows(now) && t in models {
      assert k in AllRows(start);
      forall f | f in models[t] && models[t][f].onDelete == Protect
        ensures f in start[t][pk].refs <==> f in now[t][pk].refs
        ensures f in now[t][pk].refs ==> start[t][pk].refs[f] == now[t][pk].refs[f]
      {
        assert RefFollows(models, Gone(start, now), t, f, start[t][pk], now[t][pk]);
      }
      assert Hits(now[t][pk], models[t], s, Protect) <==> Hits(start[t][pk], models[t], s, Protect);
    }
  }

  lemma StepBlocked(models: map<string, Model>, policy: map<string, Rule>, start: Tables, st: Mixed,
                    labels: seq<string>,
                    selected: map<string, set<int>>, i: nat)
    requires i < |labels| && labels[i] in selected && RefsFollow(models, start, st.tables)
    requires GoneExactly(models, start, st.tables, AllSeeds(start, labels[..i], selected))
    ensures DeleteSelected(st, models, policy, labels[i], selected[labels[i]]).Err?
       <==> Blocked(start, models, labels, selected, i)
  {
    var victims := Cascaded(st.tables, models, Seeds(st.tables, labels[i], selected[labels[i]]));
    var before := CascadeOf(start, models, labels, selected, i);
    VictimsAdded(models, start, st.tables, labels, selected, i);
    forall k ensures k in Referrers(st.tables, models, victims, Protect)
                <==> k in Referrers(start, models, victims, Protect) - before {
      SameProtectors(models, start, st.tables, victims, k);
    }
    assert Referrers(st.tables, models, victims, Protect) == Referrers(start, models, victims, Protect) - before;
  }

  lemma NothingSelected(start: Tables, models: map<string, Model>, labels: seq<string>, selected: map<string, set<int>>,
                        i: nat)
    requires i < |labels| && (labels[i] in selected ==> selected[labels[i]] == {})
    ensures AllSeeds(start, labels[..i + 1], selected) == AllSeeds(start, labels[..i], selected)
    ensures !Blocked(start, models, labels, selected, i)
  {
    SeedsMore(start, labels, selected, i);
    assert SeedsAt(start, labels[i], selected) == {};
    var before := CascadeOf(start, models, labels, selected, i);
    assert before - before == {} && Referrers(start, models, {}, Protect) == {};
  }

  ghost predicate SomeBlocked(start: Tables, models: map<string, Model>, labels: seq<string>,
                              selected: map<string, set<int>>, i: nat)
  {
    exists j :: i <= j < |labels| && Blocked(start, models, labels, selected, j)
  }

  /** The mixed tables go through exactly when no protected row is in the way. */
  lemma {:induction false} DeleteMixedExactly(models: map<string, Model>, policy: map<string, Rule>, start: Tables,
                                              st: Mixed, labels: seq<string>, selected: map<string, set<int>>, i: nat)
    requires i <= |labels| && RefsFollow(models, start, st.tables)
    requires GoneExactly(models, start, st.tables, AllSeeds(start, labels[..i], selected))
    ensures DeleteMixed(st, models, policy, labels[i..], selected).Err?
       <==> SomeBlocked(start, models, labels, selected, i)
    decreases |labels| - i
  {
    if i < |labels| {
      var t := labels[i];
      assert labels[i..][1..] == labels[i + 1..];
      if t !in selected || selected[t] == {} {
        NothingSelected(start, models, labels, selected, i);
        DeleteMixedExactly(models, policy, start, st, labels, selected, i + 1);
      } else {
        StepBlocked(models, policy, start, st, labels, selected, i);
        var next := DeleteSelected(st, models, policy, t, selected[t]);
        if next.Ok? {
          GoneOne(models, policy, start, st, AllSeeds(start, labels[..i], selected), t, selected);
          SeedsMore(start, labels, selected, i);
          RefsFollowStep(models, start, st.tables, Cascaded(st.tables, models, Seeds(st.tables, t, selected[t])));
          DeleteMixedExactly(models, policy, start, next.value, labels, selected, i + 1);
        }
      }
      assert SomeBlocked(start, models, labels, selected, i)
        <==> Blocked(start, models, labels, selected, i) || SomeBlocked(start, models, labels, selected, i + 1);
    }
  }

  /** Some row, told from the state before, protects what one of the mixed tables would take along. */
  ghost predicate Protected(tables: Tables, models: map<string, Model>, policy: map<string, Rule>) {
    SomeBlocked(Purged(tables, models, policy), models, Sorted(models.Keys), Selected(models, policy, tables), 0)
  }

  lemma ProtectedExactly(tables: Tables, models: map<string, Model>, policy: map<string, Rule>)
    ensures AfterMixed(tables, models, policy).Err? <==> Protected(tables, models, policy)
  {
    var start, labels, selected := Purged(tables, models, policy), Sorted(models.Keys),
      Selected(models, policy, tables);
    NothingGone(models, start);
    assert Gone(start, start) == {};
    assert labels[..0] == [] && labels[0..] == labels;
    DeleteMixedExactly(models, policy, start, Mixed(start, map[]), labels, selected, 0);
  }

  ghost predicate SomeStranded(tables: Tables, models: map<string, Model>, policy: map<string, Rule>) {
    exists t, pk, f :: Stranded(tables, models, policy, t, pk, f)
  }

  /**
   An accepted purge of consistent tables: it fails on a protected row, else on a constraint, else it succeeds,
   and which of them is decided by the state before.
   */
  lemma PurgeOutcome(tables: Tables, models: map<string, Model>, policy: map<string, Rule>)
    requires PolicyAccepts(models, policy) && tables.Keys == models.Keys && Consistent(tables, models)
    ensures Transaction(tables, models, policy) == Err(ProtectedRows) <==> Protected(tables, models, policy)
    ensures Transaction(tables, models, policy) == Err(BrokenConstraint)
       <==> !Protected(tables, models, policy) && SomeStranded(tables, models, policy)
    ensures Transaction(tables, models, policy).Ok?
       <==> !Protected(tables, models, policy) && !SomeStranded(tables, models, policy)
  {
    var r := AfterMixed(tables, models, policy);
    ProtectedExactly(tables, models, policy);
    AuditNeverFires(tables, models, policy);
    if r.Ok? {
      ConsistentExactly(tables, models, policy, r.value);
    } else {
      DeleteFailsProtected(Mixed(Purged(tables, models, policy), map[]), models, policy, Sorted(models.Keys),
                           Selected(models, policy, tables));
    }
  }

  const TWO_MODELS: map<string, Model> := map["A" := map[], "M" := map["f" := Link("A", DoNothing)]]

  const NO_ROWS: Tables -> set<int> := (t: Tables) => {}

  const TWO_RULES: map<string, Rule> := map["A" := Rule(Purge, {}, NO_ROWS), "M" := Rule(PurgeRows, {}, NO_ROWS)]

  const TWO_TABLES: Tables :=
    map["A" := map[1 := Row(map[], {})], "M" := map[1 := Row(map["f" := Some(1)], {})]]

  /** An accepted policy and consistent tables, and yet the purge is aborted. */
  lemma AcceptedPurgeAborts()
    ensures PolicyAccepts(TWO_MODELS, TWO_RULES) && Consistent(TWO_TABLES, TWO_MODELS)
    ensures Transaction(TWO_TABLES, TWO_MODELS, TWO_RULES) == Err(BrokenConstraint)
  {
    TwoAccepted();
    TwoConsistent();
    NothingLeaves();
    TwoStranded();
    StrandedAborts(TWO_TABLES, TWO_MODELS, TWO_RULES, "M", 1, "f");
  }

  lemma StrandedAborts(tables: Tables, models: map<string, Model>, policy: map<string, Rule>, t: string, pk: int,
                       f: string)
    requires PolicyAccepts(models, policy) && tables.Keys == models.Keys && Consistent(tables, models)
    requires Stranded(tables, models, policy, t, pk, f) && !Protected(tables, models, policy)
    ensures Transaction(tables, models, policy) == Err(BrokenConstraint)
  {
    PurgeOutcome(tables, models, policy);
  }

  lemma TwoAccepted()
    ensures PolicyAccepts(TWO_MODELS, TWO_RULES) && TWO_TABLES.Keys == TWO_MODELS.Keys
  {
    forall t, f ensures !Dangles(TWO_MODELS, TWO_RULES, t, f) {}
  }

  lemma TwoConsistent()
    ensures Consistent(TWO_TABLES, TWO_MODELS)
  {
    assert TWO_TABLES["M"][1].refs["f"] == Some(1) && TWO_MODELS["M"]["f"].target == "A" && 1 in TWO_TABLES["A"];
  }

  lemma TwoStranded()
    requires Cascaded(Purged(TWO_TABLES, TWO_MODELS, TWO_RULES), TWO_MODELS,
                      Leaving(TWO_TABLES, TWO_MODELS, TWO_RULES)) == {}
    ensures Stranded(TWO_TABLES, TWO_MODELS, TWO_RULES, "M", 1, "f")
  {
    TwoPurged();
    assert TWO_MODELS["M"]["f"] == Link("A", DoNothing) && TWO_TABLES["M"][1].refs == map["f" := Some(1)];
  }

  lemma TwoPurged()
    ensures ("M", 1) in AllRows(Purged(TWO_TABLES, TWO_MODELS, TWO_RULES))
    ensures "A" in Doomed(TWO_MODELS, TWO_RULES)
  {
    assert TWO_RULES["M"].action == PurgeRows && 1 in Purged(TWO_TABLES, TWO_MODELS, TWO_RULES)["M"];
  }

  lemma NothingLeaves()
    ensures Cascaded(Purged(TWO_TABLES, TWO_MODELS, TWO_RULES), TWO_MODELS,
                     Leaving(TWO_TABLES, TWO_MODELS, TWO_RULES)) == {}
    ensures !Protected(TWO_TABLES, TWO_MODELS, TWO_RULES)
  {
    var start, labels := Purged(TWO_TABLES, TWO_MODELS, TWO_RULES), Sorted(TWO_MODELS.Keys);
    var selected := Selected(TWO_MODELS, TWO_RULES, TWO_TABLES);
    forall t, pk ensures (t, pk) !in Leaving(TWO_TABLES, TWO_MODELS, TWO_RULES) {
      SeedsOfTable(start, labels, selected, t, pk);
    }
    assert Leaving(TWO_TABLES, TWO_MODELS, TWO_RULES) == {};
    assert Referrers(start, TWO_MODELS, {}, Cascade) == {};
    forall i: nat | i < |labels| ensures !Blocked(start, TWO_MODELS, labels, selected, i) {
      NothingSelected(start, TWO_MODELS, labels, selected, i);
    }
  }

  // ---- The customer accounts ----

  const USERS := "auth.User"
  const USER_GROUPS := "auth.User_groups"
  const CUSTOMER_USERS := "doorman.CustomerUser"

  function RowsOf(tables: Tables, t: string): Table {
    if t in tables then tables[t] else map[]
  }

  predicate PointsTo(table: Table, field: string, pk: int) {
    exists k :: k in table && field in table[k].refs && table[k].refs[field] == Some(pk)
  }

  /** Linked to a customer, and without an operator's role. */
  function CustomerAccounts(tables: Tables): set<int> {
    set u | u in RowsOf(tables, USERS)
            && PointsTo(RowsOf(tables, CUSTOMER_USERS), "user_id", u)
            && "is_staff" !in RowsOf(tables, USERS)[u].flags && "is_superuser" !in RowsOf(tables, USERS)[u].flags
            && !PointsTo(RowsOf(tables, USER_GROUPS), "user_id", u)
  }

  /** A table none of whose foreign keys cascades loses only its selected rows. */
  lemma CascadeSkips(tables: Tables, models: map<string, Model>, s: set<Key>, t: string)
    requires s <= AllRows(tables)
    requires t in models ==> forall f :: f in models[t] ==> models[t][f].onDelete != Cascade
    ensures forall k :: k in Cascaded(tables, models, s) && k.0 == t ==> k in s
  {
    var c := s + set k | k in AllRows(tables) && k.0 != t;
    CascadedLeast(tables, models, s, c);
  }

  lemma {:induction false} SeedsOfTable(tables: Tables, labels: seq<string>, selected: map<string, set<int>>,
                                        t: string, pk: int)
    ensures (t, pk) in AllSeeds(tables, labels, selected) <==>
            t in labels && t in selected && pk in selected[t] && t in tables && pk in tables[t]
    decreases |labels|
  {
    if labels != [] {
      SeedsOfTable(tables, labels[1..], selected, t, pk);
      assert t in labels <==> t == labels[0] || t in labels[1..];
    }
  }

  /** A mixed table none of whose keys cascades loses exactly the rows selected in the state before. */
  lemma MixedTableLoses(tables: Tables, models: map<string, Model>, policy: map<string, Rule>, st: Mixed, t: string)
    requires PolicyAccepts(models, policy) && tables.Keys == models.Keys
    requires t in models && policy[t].action == PurgeRows
    requires forall f :: f in models[t] ==> models[t][f].onDelete != Cascade
    requires Transaction(tables, models, policy) == Ok(st)
    ensures t in st.tables && st.tables[t].Keys == tables[t].Keys - policy[t].rows(tables)
  {
    TransactionSteps(tables, models, policy, st);
    MixedPartGone(tables, models, policy, st);
    LosesSelected(tables, models, policy, st.tables, t);
  }

  lemma LosesSelected(tables: Tables, models: map<string, Model>, policy: map<string, Rule>, after: Tables, t: string)
    requires t in tables && t in models && t in policy && policy[t].action == PurgeRows
    requires forall f :: f in models[t] ==> models[t][f].onDelete != Cascade
    requires GoneExactly(models, Purged(tables, models, policy), after, Leaving(tables, models, policy))
    ensures t in after && after[t].Keys == tables[t].Keys - policy[t].rows(tables)
  {
    var start, leaving := Purged(tables, models, policy), Leaving(tables, models, policy);
    SelectedRemoved(models, start, after, leaving, t);
    forall pk ensures pk in after[t] <==> pk in tables[t] && pk !in policy[t].rows(tables) {
      SelectedLeaving(tables, models, policy, t, pk);
    }
  }

  /** The accounts that leave are exactly the customer accounts of the state before the purge. */
  lemma AccountsRemoved(tables: Tables, models: map<string, Model>, policy: map<string, Rule>, st: Mixed)
    requires PolicyAccepts(models, policy) && tables.Keys == models.Keys
    requires USERS in models && policy[USERS].action == PurgeRows
             && policy[USERS].rows(tables) == CustomerAccounts(tables)
    requires forall f :: f in models[USERS] ==> models[USERS][f].onDelete != Cascade
    requires Transaction(tables, models, policy) == Ok(st)
    ensures USERS in st.tables && st.tables[USERS].Keys == tables[USERS].Keys - CustomerAccounts(tables)
  {
    MixedTableLoses(tables, models, policy, st, USERS);
  }

  /** The selected rows of one mixed table. */
  lemma SelectedLeaving(tables: Tables, models: map<string, Model>, policy: map<string, Rule>, t: string, pk: int)
    requires t in models && t in tables && t in policy && policy[t].action == PurgeRows
    ensures (t, pk) in Leaving(tables, models, policy) <==> pk in tables[t] && pk in policy[t].rows(tables)
  {
    SeedsOfTable(Purged(tables, models, policy), Sorted(models.Keys), Selected(models, policy, tables), t, pk);
  }

  /** A table without cascading keys lost exactly its selected rows. */
  lemma SelectedRemoved(models: map<string, Model>, start: Tables, after: Tables, s: set<Key>, t: string)
    requires GoneExactly(models, start, after, s) && t in start
    requires t in models ==> forall f :: f in models[t] ==> models[t][f].onDelete != Cascade
    ensures t in after && forall pk :: pk in after[t] <==> pk in start[t] && (t, pk) !in s
  {
    CascadeSkips(start, models, s, t);
    forall pk ensures pk in after[t] <==> pk in start[t] && (t, pk) !in s {
      assert (t, pk) in AllRows(after) <==> pk in after[t];
      assert (t, pk) in AllRows(start) <==> pk in start[t];
    }
  }

  /** Deciding after the raw deletes would find no account: the link that identifies them is gone by then. */
  lemma AccountsSeenTooLate(tables: Tables, models: map<string, Model>, policy: map<string, Rule>)
    requires CUSTOMER_USERS in Doomed(models, policy)
    ensures CustomerAccounts(Purged(tables, models, policy)) == {}
  {
  }

  /** An operator, and whoever has no customer behind the account, is left as he was. */
  lemma OperatorsStay(tables: Tables, models: map<string, Model>, policy: map<string, Rule>, st: Mixed, u: int)
    requires PolicyAccepts(models, policy) && tables.Keys == models.Keys
    requires "auth.User" in models && policy["auth.User"].action == PurgeRows
    requires policy["auth.User"].rows(tables) == CustomerAccounts(tables)
    requires forall f :: f in models["auth.User"] ==> models["auth.User"][f].onDelete != Cascade
    requires Transaction(tables, models, policy) == Ok(st) && u in tables["auth.User"]
    requires || "is_staff" in tables["auth.User"][u].flags || "is_superuser" in tables["auth.User"][u].flags
             || Linked(tables, "auth.User_groups", u) || !Linked(tables, "doorman.CustomerUser", u)
    ensures "auth.User" in st.tables && u in st.tables["auth.User"]
    ensures st.tables["auth.User"][u].flags == tables["auth.User"][u].flags
  {
    AccountsRemoved(tables, models, policy, st);
    TransactionSteps(tables, models, policy, st);
    CustomerExactly(tables, u);
    SurvivorsKept(tables, models, policy, st);
    assert KeptRow(tables, models, policy, "auth.User", tables["auth.User"][u], st.tables["auth.User"][u]);
  }

  /** A customer's account: linked to a customer, and to no operator's role. */
  lemma CustomerExactly(tables: Tables, u: int)
    ensures u in CustomerAccounts(tables) <==>
            && "auth.User" in tables && u in tables["auth.User"] && Linked(tables, "doorman.CustomerUser", u)
            && "is_staff" !in tables["auth.User"][u].flags && "is_superuser" !in tables["auth.User"][u].flags
            && !Linked(tables, "auth.User_groups", u)
  {
    assert Linked(tables, "doorman.CustomerUser", u) <==> PointsTo(RowsOf(tables, CUSTOMER_USERS), "user_id", u);
    assert Linked(tables, "auth.User_groups", u) <==> PointsTo(RowsOf(tables, USER_GROUPS), "user_id", u);
  }

  /** Some row of the table belongs to the user. */
  predicate Linked(tables: Tables, t: string, u: int) {
    t in tables && exists k :: k in tables[t] && BelongsTo(tables[t][k], u)
  }

  predicate BelongsTo(row: Row, u: int) {
    "user_id" in row.refs && row.refs["user_id"] == Some(u)
  }

  /** A customer's account without any operator's role is gone. */
  lemma CustomersLeave(tables: Tables, models: map<string, Model>, policy: map<string, Rule>, st: Mixed, u: int)
    requires PolicyAccepts(models, policy) && tables.Keys == models.Keys
    requires "auth.User" in models && policy["auth.User"].action == PurgeRows
    requires policy["auth.User"].rows(tables) == CustomerAccounts(tables)
    requires forall f :: f in models["auth.User"] ==> models["auth.User"][f].onDelete != Cascade
    requires Transaction(tables, models, policy) == Ok(st) && u in tables["auth.User"]
    requires "is_staff" !in tables["auth.User"][u].flags && "is_superuser" !in tables["auth.User"][u].flags
    requires !Linked(tables, "auth.User_groups", u) && Linked(tables, "doorman.CustomerUser", u)
    ensures "auth.User" in st.tables && u !in st.tables["auth.User"]
  {
    AccountsRemoved(tables, models, policy, st);
    CustomerExactly(tables, u);
  }
}
