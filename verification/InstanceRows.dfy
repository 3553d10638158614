/** One row: what planning, writing and projecting it again does to a single item. */
module InstanceRows {
  import opened Texts
  import opened JsonValues
  import opened Planner
  import opened PlanLog
  import opened PlanGuarantees
  import opened InstanceModel

  // ---- Where a merged node comes from ----

  /** A merged node is the stored one, the declared one, or a mapping merged from two mappings. */
  lemma {:induction false} MergedOrigin(policy: Policy, section: string, d: Json, v: Json, b: Node,
                                        rel: seq<string>, path: seq<string>)
    ensures var m, vp, dp := Lookup(Some(MergeNode(policy, section, d, v, b, rel)), path),
                             Lookup(Some(v), path), Lookup(Some(d), path);
            || m == vp || m == dp || m.None?
            || (m.value.Obj? && vp.Some? && vp.value.Obj? && dp.Some? && dp.value.Obj?)
    decreases d
  {
    if d.Obj? && v.Obj? {
      MergedGet(policy, section, d, v, b, rel, "");
      if path != [] {
        var k := path[0];
        MergedGet(policy, section, d, v, b, rel, k);
        LookupNone(path[1..]);
        if k in d.fields && k in v.fields {
          MergedOrigin(policy, section, d.fields[k], v.fields[k], Get(b, k), rel + [k], path[1..]);
        }
      }
    }
  }

  /** A merged tree that only equals the stored one in Python's sense is the stored one. */
  lemma {:induction false} MergedExact(policy: Policy, section: string, d: Json, v: Json, b: Node, rel: seq<string>)
    requires PyEq(v, MergeNode(policy, section, d, v, b, rel))
    ensures MergeNode(policy, section, d, v, b, rel) == v
    decreases d
  {
    if d.Obj? && v.Obj? {
      var m := MergeNode(policy, section, d, v, b, rel);
      MergedGet(policy, section, d, v, b, rel, "");
      PyEqObj(v, m);
      forall k ensures MergeField(policy, section, d, v, b, rel, k) == Get(Some(v), k) {
        MergedGet(policy, section, d, v, b, rel, k);
        if k in d.fields && k in v.fields && !IsOperational(section, rel + [k]) {
          MergedExact(policy, section, d.fields[k], v.fields[k], Get(b, k), rel + [k]);
        }
      }
      UnchangedByKeys(policy, section, d, v, b, rel);
    }
  }

  /** The same for one stored cell of the tree. */
  lemma {:induction false} MergedCellExact(policy: Policy, section: string, d: Json, v: Json, b: Node,
                                           rel: seq<string>, path: seq<string>)
    requires Lookup(Some(v), path).Some?
    requires SameNode(Lookup(Some(v), path), Lookup(Some(MergeNode(policy, section, d, v, b, rel)), path))
    ensures Lookup(Some(MergeNode(policy, section, d, v, b, rel)), path) == Lookup(Some(v), path)
    decreases d
  {
    if path == [] {
      MergedExact(policy, section, d, v, b, rel);
    } else if d.Obj? && v.Obj? {
      var k := path[0];
      MergedGet(policy, section, d, v, b, rel, k);
      LookupNone(path[1..]);
      if k in d.fields && k in v.fields && !IsOperational(section, rel + [k]) {
        MergedCellExact(policy, section, d.fields[k], v.fields[k], Get(b, k), rel + [k], path[1..]);
      }
    } else {
      LookupNone(path[1..]);
    }
  }

  lemma PyEqFalsy(a: Json, b: Json)
    requires PyEq(a, b)
    ensures Falsy(a) <==> Falsy(b)
    ensures b == EMPTY ==> a == EMPTY
  {
    match a
    case Arr(items) => assert |Norm(a).items| == |items|;
    case Obj(fields) => assert Norm(a).fields.Keys == fields.Keys;
    case _ =>
  }

  /** A stored column after a merge and a write: the merged cell itself. */
  lemma ColumnHoldsMerged(policy: Policy, section: string, d: Json, v: Json, b: Node, path: seq<string>, stored: Json)
    requires Lookup(Some(v), path) == Some(stored)
    requires Lookup(Some(MergeNode(policy, section, d, v, b, [])), path).Some?
    ensures var m := Lookup(Some(MergeNode(policy, section, d, v, b, [])), path).value;
            Column(stored, m) == m
  {
    var m := Lookup(Some(MergeNode(policy, section, d, v, b, [])), path).value;
    if PyEq(stored, m) { MergedCellExact(policy, section, d, v, b, [], path); }
  }

  /** The same for a free mapping column, which is projected as `value or {}`. */
  lemma MappingColumnHoldsMerged(policy: Policy, section: string, d: Json, v: Json, b: Node, path: seq<string>,
                                 stored: Json)
    requires Lookup(Some(v), path) == Some(OrEmpty(stored))
    requires Lookup(Some(MergeNode(policy, section, d, v, b, [])), path).Some?
    ensures var m := Lookup(Some(MergeNode(policy, section, d, v, b, [])), path).value;
            OrEmpty(Column(stored, m)) == OrEmpty(m)
  {
    var m := Lookup(Some(MergeNode(policy, section, d, v, b, [])), path).value;
    if PyEq(stored, m) {
      PyEqFalsy(stored, m);
      if !Falsy(stored) { MergedCellExact(policy, section, d, v, b, [], path); }
    }
  }

  // ---- Items of the form {enabled, config: {...}} ----

  function Cfg(n: Node, k: string): Node {
    Get(Get(n, "config"), k)
  }

  /** A projected item: exactly `enabled` and `config`, the latter with exactly the given fields. */
  ghost predicate IsConfigItem(j: Json, fields: set<string>) {
    && j.Obj? && j.fields.Keys == {"enabled", "config"}
    && j.fields["config"].Obj? && j.fields["config"].fields.Keys == fields
  }

  /** How a cell reads back after the merged value was written: as merged, or re-filled or re-sorted. */
  ghost predicate Reread(v: Node, m: Node, after: Node) {
    || m.None?
    || after == m
    || ((m == v ==> after == v) && (v.Some? && v.value.Obj? && m.value.Obj? ==> after == m))
  }

  ghost predicate AccountedBelow(v: Node, m: Node, b: Node) {
    forall p :: Accounted(Lookup(v, p), Lookup(m, p), Lookup(b, p))
  }

  lemma AccountedChild(v: Node, m: Node, b: Node, k: string)
    requires AccountedBelow(v, m, b)
    ensures AccountedBelow(Get(v, k), Get(m, k), Get(b, k))
  {
    forall p ensures Accounted(Lookup(Get(v, k), p), Lookup(Get(m, k), p), Lookup(Get(b, k), p)) {
      var q := [k] + p;
      assert q[1..] == p;
      assert Accounted(Lookup(v, q), Lookup(m, q), Lookup(b, q));
    }
  }

  lemma CellAccounted(v: Node, m: Node, after: Node, b: Node, path: seq<string>)
    requires v.Some? && AccountedBelow(v, m, b) && Reread(v, m, after)
    ensures Accounted(Lookup(v, path), Lookup(after, path), Lookup(b, path))
  {
    assert Accounted(Lookup(v, []), Lookup(m, []), Lookup(b, []));
    assert Accounted(Lookup(v, path), Lookup(m, path), Lookup(b, path));
    if SameNode(b, v) { SameNodeLookup(b, v, path); }
  }

  lemma ConfigItemAccounted(v: Json, m: Json, after: Json, b: Node, fields: set<string>, path: seq<string>)
    requires IsConfigItem(v, fields) && IsConfigItem(after, fields)
    requires AccountedBelow(Some(v), Some(m), b)
    requires Reread(Get(Some(v), "enabled"), Get(Some(m), "enabled"), Get(Some(after), "enabled"))
    requires forall k :: k in fields ==> Reread(Cfg(Some(v), k), Cfg(Some(m), k), Cfg(Some(after), k))
    ensures Accounted(Lookup(Some(v), path), Lookup(Some(after), path), Lookup(b, path))
  {
    if path != [] && path[0] !in {"enabled", "config"} {
      NothingElsewhere(v, fields, path);
      NothingElsewhere(after, fields, path);
    } else if path != [] && path[0] == "enabled" {
      AccountedChild(Some(v), Some(m), b, "enabled");
      CellAccounted(Get(Some(v), "enabled"), Get(Some(m), "enabled"), Get(Some(after), "enabled"), Get(b, "enabled"),
                    path[1..]);
    } else if |path| >= 2 {
      AccountedChild(Some(v), Some(m), b, "config");
      ConfigCellAccounted(v, m, after, b, fields, path);
    }
  }

  lemma NothingElsewhere(j: Json, fields: set<string>, path: seq<string>)
    requires IsConfigItem(j, fields) && path != [] && path[0] !in {"enabled", "config"}
    ensures Lookup(Some(j), path) == None
  {
    LookupNone(path[1..]);
  }

  lemma ConfigCellAccounted(v: Json, m: Json, after: Json, b: Node, fields: set<string>, path: seq<string>)
    requires IsConfigItem(v, fields) && IsConfigItem(after, fields)
    requires AccountedBelow(Get(Some(v), "config"), Get(Some(m), "config"), Get(b, "config"))
    requires forall k :: k in fields ==> Reread(Cfg(Some(v), k), Cfg(Some(m), k), Cfg(Some(after), k))
    requires |path| >= 2 && path[0] == "config"
    ensures Accounted(Lookup(Some(v), path), Lookup(Some(after), path), Lookup(b, path))
  {
    var k := path[1];
    LookupTwo(Some(v), path);
    LookupTwo(Some(after), path);
    LookupTwo(b, path);
    if k in fields {
      AccountedChild(Get(Some(v), "config"), Get(Some(m), "config"), Get(b, "config"), k);
      CellAccounted(Cfg(Some(v), k), Cfg(Some(m), k), Cfg(Some(after), k), Cfg(b, k), path[2..]);
    } else {
      LookupNone(path[2..]);
    }
  }

  lemma LookupTwo(n: Node, path: seq<string>)
    requires |path| >= 2
    ensures Lookup(n, path) == Lookup(Get(Get(n, path[0]), path[1]), path[2..])
  {
    assert path[1..][1..] == path[2..];
  }

  /** The cells a declaration settles stay settled when they read back as merged. */
  lemma ConfigItemSettled(policy: Policy, section: string, d: Json, m: Json, after: Json, fields: set<string>)
    requires d.Obj? && m.Obj? && d.fields.Keys <= {"enabled", "config"}
    requires Settled(policy, section, d, m, [])
    requires IsConfigItem(after, fields)
    requires "enabled" in d.fields ==> "enabled" in m.fields && after.fields["enabled"] == m.fields["enabled"]
    requires "config" in d.fields ==>
               && d.fields["config"].Obj? && d.fields["config"].fields.Keys <= fields
               && "config" in m.fields && m.fields["config"].Obj?
               && forall k :: k in d.fields["config"].fields ==>
                    Cfg(Some(m), k).Some? && Cfg(Some(after), k) == Cfg(Some(m), k)
    ensures Settled(policy, section, d, after, [])
  {
    assert [] + ["config"] == ["config"] && [] + ["enabled"] == ["enabled"];
    if "config" in d.fields {
    }
  }
}
