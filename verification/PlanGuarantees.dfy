/** What a merge guarantees the operator and the next apply. */
module PlanGuarantees {
  import opened Texts
  import opened JsonValues
  import opened Planner
  import opened PlanLog

  lemma {:induction false} ConcatMember(keys: seq<string>, logs: map<string, seq<Change>>, k: string, c: Change)
    requires forall x :: x in keys ==> x in logs
    requires k in keys && c in logs[k]
    ensures c in Concat(keys, logs)
    decreases |keys|
  {
    if k != keys[0] { ConcatMember(keys[1..], logs, k, c); }
  }

  // ---- The three policies differ only at conflicts ----

  /** The same decision, or the same drift answered by each policy in its own way. */
  predicate SameDecision(p: Policy, q: Policy, a: Change, b: Change) {
    && a.path == b.path && a.declared == b.declared && a.database == b.database
    && (a.action == b.action || (a.action == DriftAction(p) && b.action == DriftAction(q)))
  }

  ghost predicate SameDecisions(p: Policy, q: Policy, a: seq<Change>, b: seq<Change>) {
    |a| == |b| && forall i :: 0 <= i < |a| ==> SameDecision(p, q, a[i], b[i])
  }

  lemma {:induction false} ConcatSameDecisions(p: Policy, q: Policy, keys: seq<string>,
                                               a: map<string, seq<Change>>, b: map<string, seq<Change>>)
    requires forall k :: k in keys ==> k in a && k in b && SameDecisions(p, q, a[k], b[k])
    ensures SameDecisions(p, q, Concat(keys, a), Concat(keys, b))
    decreases |keys|
  {
    if keys != [] { ConcatSameDecisions(p, q, keys[1..], a, b); }
  }

  /** Under any two policies the logs name the same paths in the same order. */
  lemma {:induction false} PoliciesAgreeOffConflicts(p: Policy, q: Policy, section: string, d: Json, v: Json, b: Node,
                                                     parts: seq<string>, rel: seq<string>)
    ensures SameDecisions(p, q, LogNode(p, section, d, v, b, parts, rel), LogNode(q, section, d, v, b, parts, rel))
    decreases d, 1
  {
    if d.Obj? && v.Obj? {
      var x := LogTable(p, section, d, v, b, parts, rel);
      var y := LogTable(q, section, d, v, b, parts, rel);
      forall k | k in KeysOf(d, v) ensures SameDecisions(p, q, x[k], y[k]) {
        FieldsAgreeOffConflicts(p, q, section, d, v, b, parts, rel, k);
      }
      ConcatSameDecisions(p, q, Sorted(KeysOf(d, v)), x, y);
    }
  }

  lemma {:induction false} FieldsAgreeOffConflicts(p: Policy, q: Policy, section: string, d: Json, v: Json, b: Node,
                                                   parts: seq<string>, rel: seq<string>, k: string)
    requires d.Obj? && v.Obj?
    ensures SameDecisions(p, q, LogField(p, section, d, v, b, parts, rel, k),
                          LogField(q, section, d, v, b, parts, rel, k))
    decreases d, 0
  {
    if k in d.fields && k in v.fields {
      PoliciesAgreeOffConflicts(p, q, section, d.fields[k], v.fields[k], Get(b, k), parts + [k], rel + [k]);
    }
  }

  ghost predicate ConflictFree(log: seq<Change>) {
    forall c :: c in log ==> c.action != Conflict
  }

  /** When refuse meets no conflict, the policy does not matter. */
  lemma NoConflictSameTarget(p: Policy, section: string, d: Json, v: Json, b: Node,
                             parts: seq<string>, rel: seq<string>)
    requires ConflictFree(LogNode(Refuse, section, d, v, b, parts, rel))
    ensures LogNode(p, section, d, v, b, parts, rel) == LogNode(Refuse, section, d, v, b, parts, rel)
    ensures MergeNode(p, section, d, v, b, rel) == MergeNode(Refuse, section, d, v, b, rel)
  {
    var x, y := LogNode(Refuse, section, d, v, b, parts, rel), LogNode(p, section, d, v, b, parts, rel);
    PoliciesAgreeOffConflicts(Refuse, p, section, d, v, b, parts, rel);
    forall i | 0 <= i < |x| ensures x[i] == y[i] {
      assert x[i] in x;
      assert SameDecision(Refuse, p, x[i], y[i]);
    }
    LogReplays(Refuse, section, d, v, b, parts, rel);
    LogReplays(p, section, d, v, b, parts, rel);
  }

  // ---- Operational state ----

  lemma SameWalkNull(a: Node, b: Node, path: seq<string>)
    requires SameNode(a, b)
    ensures WalkOrNull(a, path) == Null <==> WalkOrNull(b, path) == Null
  {
    SameNodeLookup(a, b, path);
  }

  /** The path is not declared; a field of the item itself may be, since the planner never looks at it there. */
  predicate LeavesState(d: Json, v: Json, rest: seq<string>) {
    (d.Obj? && v.Obj? && |rest| == 1) || WalkOrNull(Some(d), rest) == Null
  }

  /**
   Refuse and keep give up what is stored at the path: along the keys that both trees have, they come to a
   mapping or value above it that is stored as it was applied last and is declared otherwise now.
   */
  predicate LetGo(d: Json, v: Json, b: Node, rest: seq<string>)
    decreases |rest|
  {
    if d.Obj? && v.Obj? then
      && |rest| > 1 && rest[0] in v.fields
      && (if rest[0] in d.fields then LetGo(d.fields[rest[0]], v.fields[rest[0]], Get(b, rest[0]), rest[1..])
          else SameNode(Get(b, rest[0]), Get(Some(v), rest[0])))
    else !PyEq(d, v) && SameNode(b, Some(v))
  }

  lemma StateNotNested(section: string, p: seq<string>, n: nat)
    requires p in OperationalState(section) && n < |p|
    ensures !IsOperational(section, p[..n])
  {
    if section == "channels" {
      var q := p[..n];
      assert n == 0 ==> q == [];
      assert n > 0 ==> q[0] == p[0];
      assert n > 1 ==> q[1] == p[1];
      assert n > 2 ==> q[2] == p[2];
    }
  }

  /** A mapping or value without anything at the path. */
  lemma NothingBelow(j: Json, rest: seq<string>)
    requires !j.Obj? && rest != []
    ensures WalkOrNull(Some(j), rest) == Null
  {
    LookupNone(rest[1..]);
  }

  /** Under refuse and keep an operational path reads as stored exactly when nothing stood there or it is not let go. */
  lemma {:induction false} OperationalStateSurvives(policy: Policy, section: string, d: Json, v: Json, b: Node,
                                                    rel: seq<string>, rest: seq<string>)
    requires policy != Overwrite
    requires rest != [] && rel + rest in OperationalState(section) && LeavesState(d, v, rest)
    ensures WalkOrNull(Some(MergeNode(policy, section, d, v, b, rel)), rest) == WalkOrNull(Some(v), rest)
       <==> WalkOrNull(Some(v), rest) == Null || !LetGo(d, v, b, rest)
    decreases d
  {
    if d.Obj? && v.Obj? {
      var k := rest[0];
      MergedGet(policy, section, d, v, b, rel, k);
      assert rel + [k] + rest[1..] == rel + rest;
      if |rest| == 1 {
        assert rest == [k];
      } else {
        StateNotNested(section, rel + rest, |rel| + 1);
        assert (rel + rest)[..|rel| + 1] == rel + [k];
        LookupNone(rest[1..]);
        if k in d.fields && k in v.fields {
          OperationalStateSurvives(policy, section, d.fields[k], v.fields[k], Get(b, k), rel + [k], rest[1..]);
        }
      }
    } else if !v.Obj? {
      NothingBelow(v, rest);
    }
  }

  /** The descriptor still declares the mappings above the path (or never owned the first missing one). */
  predicate StillDeclaredAbove(d: Json, b: Node, rest: seq<string>)
    decreases |rest|
  {
    d.Obj? && (|rest| <= 1 ||
    if rest[0] in d.fields then StillDeclaredAbove(d.fields[rest[0]], Get(b, rest[0]), rest[1..])
    else Get(b, rest[0]).None?)
  }

  /** Under overwrite it does so exactly when nothing stood there or the mappings above are still declared. */
  lemma {:induction false} OperationalStateUnderOverwrite(section: string, d: Json, v: Json, b: Node,
                                                          rel: seq<string>, rest: seq<string>)
    requires rest != [] && rel + rest in OperationalState(section) && LeavesState(d, v, rest)
    ensures WalkOrNull(Some(MergeNode(Overwrite, section, d, v, b, rel)), rest) == WalkOrNull(Some(v), rest)
       <==> WalkOrNull(Some(v), rest) == Null || StillDeclaredAbove(d, b, rest)
    decreases d
  {
    if d.Obj? && v.Obj? {
      var k := rest[0];
      MergedGet(Overwrite, section, d, v, b, rel, k);
      assert rel + [k] + rest[1..] == rel + rest;
      if |rest| == 1 {
        assert rest == [k];
      } else {
        StateNotNested(section, rel + rest, |rel| + 1);
        assert (rel + rest)[..|rel| + 1] == rel + [k];
        LookupNone(rest[1..]);
        if k in d.fields && k in v.fields {
          OperationalStateUnderOverwrite(section, d.fields[k], v.fields[k], Get(b, k), rel + [k], rest[1..]);
        }
      }
    } else {
      if PyEq(d, v) { SameWalkNull(Some(d), Some(v), rest); }
      if !v.Obj? { NothingBelow(v, rest); }
    }
  }

  /** What a policy gives up above the path. */
  predicate GivesUp(policy: Policy, d: Json, v: Json, b: Node, rest: seq<string>) {
    if policy == Overwrite then !StillDeclaredAbove(d, b, rest) else LetGo(d, v, b, rest)
  }

  /**
   Every policy, every base: an operational path reads as stored exactly when nothing stood there or it is
   not given up.
   */
  lemma OperationalStateExactly(policy: Policy, section: string, d: Json, v: Json, b: Node, rel: seq<string>,
                                rest: seq<string>)
    requires rest != [] && rel + rest in OperationalState(section) && LeavesState(d, v, rest)
    ensures WalkOrNull(Some(MergeNode(policy, section, d, v, b, rel)), rest) == WalkOrNull(Some(v), rest)
       <==> WalkOrNull(Some(v), rest) == Null || !GivesUp(policy, d, v, b, rest)
  {
    if policy == Overwrite {
      OperationalStateUnderOverwrite(section, d, v, b, rel, rest);
    } else {
      OperationalStateSurvives(policy, section, d, v, b, rel, rest);
    }
  }

  /** A base that holds nothing at the path gives refuse and keep no reason to let it go. */
  lemma {:induction false} CleanBaseKeeps(d: Json, v: Json, b: Node, rest: seq<string>)
    requires rest != [] && WalkOrNull(b, rest) == Null && LetGo(d, v, b, rest)
    ensures WalkOrNull(Some(v), rest) == Null
    decreases |rest|
  {
    if d.Obj? && v.Obj? {
      if rest[0] in d.fields {
        CleanBaseKeeps(d.fields[rest[0]], v.fields[rest[0]], Get(b, rest[0]), rest[1..]);
      } else {
        SameWalkNull(Get(b, rest[0]), Get(Some(v), rest[0]), rest[1..]);
      }
    } else {
      SameWalkNull(b, Some(v), rest);
    }
  }

  // ---- Where it does not survive ----

  const ACTIVATION := ["config", "overrides", "activation"]

  /** A mapping that holds one field. */
  function Holding(key: string, value: Json): Json {
    Obj(map[key := value])
  }

  /** A channel whose operator switched it by hand, and the mapping above that a descriptor may have applied. */
  function Switched(x: Json): Json {
    Holding("config", Holding("overrides", Holding("activation", x)))
  }

  /** A base that was applied with the operator's switch in it: refuse takes the switch away. */
  lemma RefuseLetsGo(x: Json)
    requires x != Null
    ensures var d, v := Holding("config", Obj(map[])), Switched(x);
            WalkOrNull(Some(MergeNode(Refuse, "channels", d, v, Some(v), [])), ACTIVATION)
              != WalkOrNull(Some(v), ACTIVATION)
  {
    var d, v := Holding("config", Obj(map[])), Switched(x);
    assert [] + ACTIVATION == ACTIVATION;
    assert ACTIVATION[1..][0] == "overrides";
    OperationalStateExactly(Refuse, "channels", d, v, Some(v), [], ACTIVATION);
  }

  /** A descriptor that dropped its overrides: overwrite takes the operator's switch away with them. */
  lemma OverwriteStrips(x: Json)
    requires x != Null
    ensures var d, v := Holding("config", Obj(map[])), Switched(x);
            var b := Some(Holding("config", Holding("overrides", Obj(map[]))));
            && WalkOrNull(b, ACTIVATION) == Null
            && WalkOrNull(Some(MergeNode(Overwrite, "channels", d, v, b, [])), ACTIVATION)
              != WalkOrNull(Some(v), ACTIVATION)
  {
    var d, v := Holding("config", Obj(map[])), Switched(x);
    var b := Some(Holding("config", Holding("overrides", Obj(map[]))));
    assert [] + ACTIVATION == ACTIVATION && ACTIVATION[1..] == ["overrides", "activation"];
    assert ["overrides", "activation"][1..] == ["activation"] && ["activation"][1..] == [];
    OperationalStateExactly(Overwrite, "channels", d, v, b, [], ACTIVATION);
  }

  // ---- No lost edits ----

  /** What became of a stored node: kept, still a mapping, or what the last applied version declared. */
  predicate Accounted(database: Node, merged: Node, base: Node) {
    || merged == database
    || (database.Some? && merged.Some? && database.value.Obj? && merged.value.Obj?)
    || SameNode(base, database)
  }

  /** Refuse and keep change a node only where the last applied version held the same (or also had none). */
  lemma {:induction false} NoLostEdit(policy: Policy, section: string, d: Json, v: Json, b: Node,
                                      rel: seq<string>, path: seq<string>)
    requires policy != Overwrite
    ensures Accounted(Lookup(Some(v), path), Lookup(Some(MergeNode(policy, section, d, v, b, rel)), path),
                      Lookup(b, path))
    decreases d
  {
    if d.Obj? && v.Obj? {
      MergedGet(policy, section, d, v, b, rel, "");
      if path != [] {
        var k := path[0];
        MergedGet(policy, section, d, v, b, rel, k);
        if k in d.fields && k in v.fields {
          NoLostEdit(policy, section, d.fields[k], v.fields[k], Get(b, k), rel + [k], path[1..]);
        } else if SameNode(Get(b, k), Get(Some(v), k)) {
          SameNodeLookup(Get(b, k), Get(Some(v), k), path[1..]);
        }
      }
    } else if SameNode(b, Some(v)) {
      SameNodeLookup(b, Some(v), path);
    }
  }

  // ---- Applying again ----

  /** `v` already holds everything `d` declares; under keep, or the operator's choice instead. */
  ghost predicate Settled(policy: Policy, section: string, d: Json, v: Json, rel: seq<string>)
    decreases d
  {
    if d.Obj? && v.Obj? then
      forall k :: k in d.fields && !IsOperational(section, rel + [k]) ==>
        if k in v.fields then Settled(policy, section, d.fields[k], v.fields[k], rel + [k]) else policy == Keep
    else PyEq(d, v) || policy == Keep
  }

  lemma {:induction false} SettledSelf(policy: Policy, section: string, d: Json, rel: seq<string>)
    ensures Settled(policy, section, d, d, rel)
    decreases d
  {
    if d.Obj? {
      forall k | k in d.fields ensures Settled(policy, section, d.fields[k], d.fields[k], rel + [k]) {
        SettledSelf(policy, section, d.fields[k], rel + [k]);
      }
    }
  }

  /** A conflict-free merge leaves a settled tree, whatever the base was. */
  lemma {:induction false} MergeSettles(policy: Policy, section: string, d: Json, v: Json, b: Node,
                                        parts: seq<string>, rel: seq<string>)
    requires ConflictFree(LogNode(policy, section, d, v, b, parts, rel))
    ensures Settled(policy, section, d, MergeNode(policy, section, d, v, b, rel), rel)
    decreases d, 1
  {
    var m := MergeNode(policy, section, d, v, b, rel);
    SettledSelf(policy, section, d, rel);
    if d.Obj? && v.Obj? {
      MergedGet(policy, section, d, v, b, rel, "");
      forall k | k in d.fields && !IsOperational(section, rel + [k])
        ensures if k in m.fields then Settled(policy, section, d.fields[k], m.fields[k], rel + [k]) else policy == Keep
      {
        MergedGet(policy, section, d, v, b, rel, k);
        FieldSettles(policy, section, d, v, b, parts, rel, k);
      }
    } else {
      var log := LogNode(policy, section, d, v, b, parts, rel);
      assert log != [] ==> log[0] in log;
    }
  }

  lemma {:induction false} FieldSettles(policy: Policy, section: string, d: Json, v: Json, b: Node,
                                        parts: seq<string>, rel: seq<string>, k: string)
    requires d.Obj? && v.Obj? && k in d.fields && !IsOperational(section, rel + [k])
    requires ConflictFree(LogNode(policy, section, d, v, b, parts, rel))
    ensures var mk := MergeField(policy, section, d, v, b, rel, k);
            if mk.Some? then Settled(policy, section, d.fields[k], mk.value, rel + [k]) else policy == Keep
    decreases d, 0
  {
    FieldConflictFree(policy, section, d, v, b, parts, rel, k);
    if k in v.fields {
      MergeSettles(policy, section, d.fields[k], v.fields[k], Get(b, k), parts + [k], rel + [k]);
    } else {
      SettledSelf(policy, section, d.fields[k], rel + [k]);
      var log := LogField(policy, section, d, v, b, parts, rel, k);
      assert log[0] in log;
    }
  }

  lemma FieldConflictFree(policy: Policy, section: string, d: Json, v: Json, b: Node,
                          parts: seq<string>, rel: seq<string>, k: string)
    requires d.Obj? && v.Obj? && k in KeysOf(d, v)
    requires ConflictFree(LogNode(policy, section, d, v, b, parts, rel))
    ensures ConflictFree(LogField(policy, section, d, v, b, parts, rel, k))
  {
    var logs := LogTable(policy, section, d, v, b, parts, rel);
    forall c: Change | c in logs[k] ensures c.action != Conflict {
      ConcatMember(Sorted(KeysOf(d, v)), logs, k, c);
    }
  }

  lemma {:induction false} ConcatEmpty(keys: seq<string>, logs: map<string, seq<Change>>)
    requires forall k :: k in keys ==> k in logs && logs[k] == []
    ensures Concat(keys, logs) == []
    decreases |keys|
  {
    if keys != [] { ConcatEmpty(keys[1..], logs); }
  }

  /** Applying a descriptor to a tree it has settled changes nothing and, unless keeping drift, logs nothing. */
  lemma {:induction false} SettledQuiet(policy: Policy, section: string, d: Json, v: Json,
                                        parts: seq<string>, rel: seq<string>)
    requires Settled(policy, section, d, v, rel)
    ensures MergeNode(policy, section, d, v, Some(d), rel) == v
    ensures policy != Keep ==> LogNode(policy, section, d, v, Some(d), parts, rel) == []
    decreases d, 1
  {
    if d.Obj? && v.Obj? {
      forall k
        ensures MergeField(policy, section, d, v, Some(d), rel, k) == Get(Some(v), k)
        ensures policy != Keep ==> LogField(policy, section, d, v, Some(d), parts, rel, k) == []
      {
        SettledFieldQuiet(policy, section, d, v, parts, rel, k);
      }
      UnchangedByKeys(policy, section, d, v, Some(d), rel);
      if policy != Keep { NoLogByKeys(policy, section, d, v, Some(d), parts, rel); }
    }
  }

  lemma UnchangedByKeys(policy: Policy, section: string, d: Json, v: Json, b: Node, rel: seq<string>)
    requires d.Obj? && v.Obj?
    requires forall k :: MergeField(policy, section, d, v, b, rel, k) == Get(Some(v), k)
    ensures MergeNode(policy, section, d, v, b, rel) == v
  {
    var m := MergeNode(policy, section, d, v, b, rel);
    forall k ensures Get(Some(m), k) == Get(Some(v), k) { MergedGet(policy, section, d, v, b, rel, k); }
    MergedGet(policy, section, d, v, b, rel, "");
    ObjByKeys(Some(m), Some(v));
  }

  lemma NoLogByKeys(policy: Policy, section: string, d: Json, v: Json, b: Node, parts: seq<string>, rel: seq<string>)
    requires d.Obj? && v.Obj?
    requires forall k :: LogField(policy, section, d, v, b, parts, rel, k) == []
    ensures LogNode(policy, section, d, v, b, parts, rel) == []
  {
    var logs := LogTable(policy, section, d, v, b, parts, rel);
    forall k | k in logs ensures logs[k] == [] {
      assert logs[k] == LogField(policy, section, d, v, b, parts, rel, k);
    }
    ConcatEmpty(Sorted(KeysOf(d, v)), logs);
  }

  lemma {:induction false} SettledFieldQuiet(policy: Policy, section: string, d: Json, v: Json,
                                             parts: seq<string>, rel: seq<string>, k: string)
    requires d.Obj? && v.Obj?
    requires Settled(policy, section, d, v, rel)
    ensures MergeField(policy, section, d, v, Some(d), rel, k) == Get(Some(v), k)
    ensures policy != Keep ==> LogField(policy, section, d, v, Some(d), parts, rel, k) == []
    decreases d, 0
  {
    if !IsOperational(section, rel + [k]) && k in d.fields && k in v.fields {
      SettledQuiet(policy, section, d.fields[k], v.fields[k], parts + [k], rel + [k]);
    }
  }

  lemma SettledWritesNothing(policy: Policy, section: string, d: Json, v: Json, parts: seq<string>, rel: seq<string>)
    requires Settled(policy, section, d, v, rel)
    ensures !HasWrite(LogNode(policy, section, d, v, Some(d), parts, rel))
    ensures ConflictFree(LogNode(policy, section, d, v, Some(d), parts, rel))
  {
    SettledQuiet(policy, section, d, v, parts, rel);
    WritesIffChanged(policy, section, d, v, Some(d), parts, rel);
    KeepNeverConflicts(section, d, v, Some(d), parts, rel);
  }

  /** A plan without conflict and write finds what is declared settled. */
  lemma QuietIsSettled(policy: Policy, section: string, d: Json, v: Json, b: Node, parts: seq<string>, rel: seq<string>)
    requires ConflictFree(LogNode(policy, section, d, v, b, parts, rel))
    requires !HasWrite(LogNode(policy, section, d, v, b, parts, rel))
    ensures Settled(policy, section, d, v, rel)
  {
    WritesIffChanged(policy, section, d, v, b, parts, rel);
    MergeSettles(policy, section, d, v, b, parts, rel);
  }

  /** Against its own base, refuse never changes anything. */
  lemma {:induction false} RefuseHolds(section: string, d: Json, v: Json, rel: seq<string>)
    ensures MergeNode(Refuse, section, d, v, Some(d), rel) == v
    decreases d
  {
    if d.Obj? && v.Obj? {
      forall k ensures MergeField(Refuse, section, d, v, Some(d), rel, k) == Get(Some(v), k) {
        if k in d.fields && k in v.fields { RefuseHolds(section, d.fields[k], v.fields[k], rel + [k]); }
      }
      UnchangedByKeys(Refuse, section, d, v, Some(d), rel);
    }
  }

  /** Under keep every tree is settled: the operator has the last word. */
  lemma {:induction false} KeepIsSettled(section: string, d: Json, v: Json, rel: seq<string>)
    ensures Settled(Keep, section, d, v, rel)
    decreases d
  {
    if d.Obj? && v.Obj? {
      forall k | k in d.fields && k in v.fields ensures Settled(Keep, section, d.fields[k], v.fields[k], rel + [k]) {
        KeepIsSettled(section, d.fields[k], v.fields[k], rel + [k]);
      }
    }
  }

  lemma {:induction false} KeepNeverConflicts(section: string, d: Json, v: Json, b: Node, parts: seq<string>,
                                              rel: seq<string>)
    ensures ConflictFree(LogNode(Keep, section, d, v, b, parts, rel))
    decreases d
  {
    if d.Obj? && v.Obj? {
      var logs := LogTable(Keep, section, d, v, b, parts, rel);
      forall k | k in KeysOf(d, v) ensures ConflictFree(logs[k]) {
        assert logs[k] == LogField(Keep, section, d, v, b, parts, rel, k);
        if k in d.fields && k in v.fields {
          KeepNeverConflicts(section, d.fields[k], v.fields[k], Get(b, k), parts + [k], rel + [k]);
        }
      }
      ConcatConflictFree(Sorted(KeysOf(d, v)), logs);
    }
  }

  lemma {:induction false} ConcatConflictFree(keys: seq<string>, logs: map<string, seq<Change>>)
    requires forall k :: k in keys ==> k in logs && ConflictFree(logs[k])
    ensures ConflictFree(Concat(keys, logs))
    decreases |keys|
  {
    if keys != [] { ConcatConflictFree(keys[1..], logs); }
  }
}
