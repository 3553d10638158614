/**
 The three-way merge told without its walk: which paths are compared, what is decided at each from the three
 nodes that stand there, and that the log and the merged tree hold exactly these decisions.
 */
module PlanLaws {
  import opened Texts
  import opened JsonValues
  import opened Planner
  import opened PlanLog
  import opened PlanGuarantees

  /** The operator's part of a descriptor: of a channel its switch, its last gesture and what is hidden or paused. */
  lemma OperatorsPart(section: string, rel: seq<string>)
    ensures IsOperational(section, rel) <==>
            section == "channels"
            && (|| rel == ["enabled"] || rel == ["config", "overrides", "activation"]
                || rel == ["config", "overrides", "display", "paused_skus"]
                || rel == ["config", "overrides", "display", "hidden_skus"])
  {
  }

  // ---- What is decided at a path ----

  predicate IsMap(n: Node) {
    n.Some? && n.value.Obj?
  }

  /** The path lies in mappings on both sides, and no part of it belongs to the operator. */
  predicate Compared(section: string, d: Node, v: Node, rel: seq<string>, path: seq<string>)
    decreases |path|
  {
    path != [] ==>
      && IsMap(d) && IsMap(v) && !IsOperational(section, rel + [path[0]])
      && Compared(section, Get(d, path[0]), Get(v, path[0]), rel + [path[0]], path[1..])
  }

  /**
   What is logged of a declared, a stored and a base node. Nothing when the first two agree or nobody but the
   operator ever had anything there; a stored node that is the base's follows the descriptor, any other has drifted.
   */
  function Decision(policy: Policy, d: Node, v: Node, b: Node): Option<Action> {
    if SameNode(d, v) || (d.None? && b.None?) then None
    else if !SameNode(b, v) then
      Some(match policy case Refuse => Conflict case Keep => Kept case Overwrite => Overwritten)
    else Some(if v.None? then Add else if d.None? then Remove else Update)
  }

  /** What stands there afterwards. */
  function Outcome(policy: Policy, d: Node, v: Node, b: Node): Node {
    match Decision(policy, d, v, b)
    case None => v
    case Some(action) => if action in {Conflict, Kept} then v else d
  }

  /** The entry tells what is decided at a path that is compared and does not lead on into both sides. */
  predicate Tells(policy: Policy, section: string, d: Node, v: Node, b: Node, rel: seq<string>, path: seq<string>,
                  action: Action, declared: Node, database: Node)
  {
    && Compared(section, d, v, rel, path)
    && declared == Lookup(d, path) && database == Lookup(v, path) && !(IsMap(declared) && IsMap(database))
    && Decision(policy, declared, database, Lookup(b, path)) == Some(action)
  }

  lemma TellsBelow(policy: Policy, section: string, d: Node, v: Node, b: Node, rel: seq<string>, k: string,
                   rest: seq<string>, action: Action, declared: Node, database: Node)
    requires IsMap(d) && IsMap(v) && !IsOperational(section, rel + [k])
    ensures Tells(policy, section, d, v, b, rel, [k] + rest, action, declared, database)
       <==> Tells(policy, section, Get(d, k), Get(v, k), Get(b, k), rel + [k], rest, action, declared, database)
  {
    assert ([k] + rest)[0] == k && ([k] + rest)[1..] == rest;
  }

  // ---- The log ----

  /** Every entry tells what is decided at its path. */
  lemma {:induction false} LogTells(policy: Policy, section: string, d: Json, v: Json, b: Node,
                                    parts: seq<string>, rel: seq<string>, c: Change) returns (path: seq<string>)
    requires c in LogNode(policy, section, d, v, b, parts, rel)
    ensures c.path == parts + path
    ensures Tells(policy, section, Some(d), Some(v), b, rel, path, c.action, c.declared, c.database)
    decreases d, 1
  {
    if d.Obj? && v.Obj? {
      var logs := LogTable(policy, section, d, v, b, parts, rel);
      forall k | k in KeysOf(d, v) ensures Under(logs[k], parts + [k]) {
        LogFieldUnder(policy, section, d, v, b, parts, rel, k);
      }
      var k := ConcatOrigin(Sorted(KeysOf(d, v)), logs, parts, c);
      path := FieldTells(policy, section, d, v, b, parts, rel, k, c);
    } else {
      path := [];
      assert parts + [] == parts;
    }
  }

  lemma {:induction false} FieldTells(policy: Policy, section: string, d: Json, v: Json, b: Node,
                                      parts: seq<string>, rel: seq<string>, k: string, c: Change)
    returns (path: seq<string>)
    requires d.Obj? && v.Obj? && c in LogField(policy, section, d, v, b, parts, rel, k)
    ensures c.path == parts + path
    ensures Tells(policy, section, Some(d), Some(v), b, rel, path, c.action, c.declared, c.database)
    decreases d, 0
  {
    var dk, vk := Get(Some(d), k), Get(Some(v), k);
    var rest: seq<string> := [];
    if dk.Some? && vk.Some? {
      rest := LogTells(policy, section, dk.value, vk.value, Get(b, k), parts + [k], rel + [k], c);
    } else {
      LoneFieldTells(policy, section, d, v, b, parts, rel, k, c);
    }
    path := [k] + rest;
    TellsUp(policy, section, d, v, b, parts, rel, k, rest, c);
  }

  lemma TellsUp(policy: Policy, section: string, d: Json, v: Json, b: Node, parts: seq<string>, rel: seq<string>,
                k: string, rest: seq<string>, c: Change)
    requires d.Obj? && v.Obj? && !IsOperational(section, rel + [k]) && c.path == (parts + [k]) + rest
    requires Tells(policy, section, Get(Some(d), k), Get(Some(v), k), Get(b, k), rel + [k], rest,
                   c.action, c.declared, c.database)
    ensures c.path == parts + ([k] + rest)
    ensures Tells(policy, section, Some(d), Some(v), b, rel, [k] + rest, c.action, c.declared, c.database)
  {
    assert (parts + [k]) + rest == parts + ([k] + rest);
    TellsBelow(policy, section, Some(d), Some(v), b, rel, k, rest, c.action, c.declared, c.database);
  }

  /** A key that only one side has. */
  lemma LoneFieldTells(policy: Policy, section: string, d: Json, v: Json, b: Node,
                       parts: seq<string>, rel: seq<string>, k: string, c: Change)
    requires d.Obj? && v.Obj? && c in LogField(policy, section, d, v, b, parts, rel, k)
    requires Get(Some(d), k).None? || Get(Some(v), k).None?
    ensures c.path == (parts + [k]) + []
    ensures Tells(policy, section, Get(Some(d), k), Get(Some(v), k), Get(b, k), rel + [k], [], c.action, c.declared,
                  c.database)
  {
    assert (parts + [k]) + [] == parts + [k];
  }

  /** Everything that is decided is told. */
  lemma {:induction false} ToldInLog(policy: Policy, section: string, d: Json, v: Json, b: Node,
                                     parts: seq<string>, rel: seq<string>, path: seq<string>, c: Change)
    requires c.path == parts + path
    requires Tells(policy, section, Some(d), Some(v), b, rel, path, c.action, c.declared, c.database)
    ensures c in LogNode(policy, section, d, v, b, parts, rel)
    decreases d
  {
    if path == [] {
      assert parts + path == parts;
    } else {
      var k, rest := path[0], path[1..];
      var dk, vk := Get(Some(d), k), Get(Some(v), k);
      assert path == [k] + rest && c.path == (parts + [k]) + rest;
      TellsBelow(policy, section, Some(d), Some(v), b, rel, k, rest, c.action, c.declared, c.database);
      if dk.Some? && vk.Some? {
        ToldInLog(policy, section, dk.value, vk.value, Get(b, k), parts + [k], rel + [k], rest, c);
      } else {
        LookupNone(rest);
        assert rest == [] && (parts + [k]) + [] == parts + [k];
      }
      assert c in LogField(policy, section, d, v, b, parts, rel, k);
      ConcatMember(Sorted(KeysOf(d, v)), LogTable(policy, section, d, v, b, parts, rel), k, c);
    }
  }

  predicate ToldAt(policy: Policy, section: string, d: Json, v: Json, b: Node, rel: seq<string>, path: seq<string>,
                   c: Change)
  {
    Tells(policy, section, Some(d), Some(v), b, rel, path, c.action, c.declared, c.database)
  }

  /** The log holds exactly the decisions, each at its path, with both sides as they stand there. */
  lemma LogExactly(policy: Policy, section: string, d: Json, v: Json, b: Node,
                   parts: seq<string>, rel: seq<string>, c: Change)
    ensures c in LogNode(policy, section, d, v, b, parts, rel) <==>
            exists path: seq<string> :: c.path == parts + path && ToldAt(policy, section, d, v, b, rel, path, c)
  {
    if c in LogNode(policy, section, d, v, b, parts, rel) {
      var path := LogTells(policy, section, d, v, b, parts, rel, c);
      assert ToldAt(policy, section, d, v, b, rel, path, c);
    }
    forall path: seq<string> | c.path == parts + path && ToldAt(policy, section, d, v, b, rel, path, c)
      ensures c in LogNode(policy, section, d, v, b, parts, rel)
    {
      ToldInLog(policy, section, d, v, b, parts, rel, path, c);
    }
  }

  /** The first key in which two paths differ is smaller in `p`. */
  predicate Earlier(p: seq<string>, q: seq<string>) {
    exists i :: 0 <= i < |p| && i < |q| && p[..i] == q[..i] && StrLt(p[i], q[i])
  }

  predicate LogOrdered(log: seq<Change>) {
    forall i, j :: 0 <= i < j < |log| ==> Earlier(log[i].path, log[j].path)
  }

  lemma {:induction false} ConcatOrdered(keys: seq<string>, logs: map<string, seq<Change>>, parts: seq<string>)
    requires StrictlySorted(keys)
    requires forall k :: k in keys ==> k in logs && Under(logs[k], parts + [k]) && LogOrdered(logs[k])
    ensures LogOrdered(Concat(keys, logs))
    decreases |keys|
  {
    if keys != [] {
      var first, rest := logs[keys[0]], Concat(keys[1..], logs);
      ConcatOrdered(keys[1..], logs, parts);
      forall i, j | 0 <= i < |first| && 0 <= j < |rest| ensures Earlier(first[i].path, rest[j].path) {
        var k := ConcatOrigin(keys[1..], logs, parts, rest[j]);
        assert first[i] in first && rest[j] in logs[k];
        UnderEarlier(parts, keys[0], k, first[i].path, rest[j].path);
      }
    }
  }

  lemma UnderEarlier(parts: seq<string>, k: string, l: string, p: seq<string>, q: seq<string>)
    requires StrLt(k, l) && parts + [k] <= p && parts + [l] <= q
    ensures Earlier(p, q)
  {
    var n := |parts|;
    assert p[..n] == (parts + [k])[..n] == parts && q[..n] == (parts + [l])[..n] == parts;
    assert p[n] == (parts + [k])[n] && q[n] == (parts + [l])[n];
  }

  /** The entries come in the order of their paths, key by key in code-point order. */
  lemma {:induction false} LogInOrder(policy: Policy, section: string, d: Json, v: Json, b: Node,
                                      parts: seq<string>, rel: seq<string>)
    ensures LogOrdered(LogNode(policy, section, d, v, b, parts, rel))
    decreases d
  {
    if d.Obj? && v.Obj? {
      var logs := LogTable(policy, section, d, v, b, parts, rel);
      forall k | k in KeysOf(d, v) ensures Under(logs[k], parts + [k]) && LogOrdered(logs[k]) {
        LogFieldUnder(policy, section, d, v, b, parts, rel, k);
        if k in d.fields && k in v.fields {
          LogInOrder(policy, section, d.fields[k], v.fields[k], Get(b, k), parts + [k], rel + [k]);
        }
      }
      ConcatOrdered(Sorted(KeysOf(d, v)), logs, parts);
    }
  }

  // ---- The merged tree ----

  /** What the merge leaves at a path that is compared: a mapping where both sides have one, else what is decided. */
  lemma {:induction false} MergedExactly(policy: Policy, section: string, d: Json, v: Json, b: Node,
                                         rel: seq<string>, path: seq<string>)
    requires Compared(section, Some(d), Some(v), rel, path)
    ensures var m := Lookup(Some(MergeNode(policy, section, d, v, b, rel)), path);
            var (dp, vp, bp) := (Lookup(Some(d), path), Lookup(Some(v), path), Lookup(b, path));
            if IsMap(dp) && IsMap(vp) then IsMap(m) else m == Outcome(policy, dp, vp, bp)
    decreases d
  {
    if path == [] {
      if d.Obj? && v.Obj? { MergedGet(policy, section, d, v, b, rel, ""); }
    } else {
      var k := path[0];
      MergedGet(policy, section, d, v, b, rel, k);
      LookupNone(path[1..]);
      if k in d.fields && k in v.fields {
        MergedExactly(policy, section, d.fields[k], v.fields[k], Get(b, k), rel + [k], path[1..]);
      }
    }
  }

  /** And at a path that belongs to the operator: what is stored. */
  lemma {:induction false} MergedOperational(policy: Policy, section: string, d: Json, v: Json, b: Node,
                                             rel: seq<string>, path: seq<string>, k: string)
    requires Compared(section, Some(d), Some(v), rel, path) && IsOperational(section, rel + path + [k])
    requires IsMap(Lookup(Some(d), path)) && IsMap(Lookup(Some(v), path))
    ensures Lookup(Some(MergeNode(policy, section, d, v, b, rel)), path + [k]) == Lookup(Some(v), path + [k])
    decreases d
  {
    if path == [] {
      assert path + [k] == [k] && [k][1..] == [] && rel + path + [k] == rel + [k];
      MergedGet(policy, section, d, v, b, rel, k);
    } else {
      var j := path[0];
      MergedGet(policy, section, d, v, b, rel, j);
      LookupNone(path[1..]);
      assert (path + [k])[0] == j && (path + [k])[1..] == path[1..] + [k];
      assert rel + path + [k] == (rel + [j]) + path[1..] + [k];
      MergedOperational(policy, section, d.fields[j], v.fields[j], Get(b, j), rel + [j], path[1..], k);
    }
  }

  // ---- The tree that has not drifted ----

  /** No part of the path belongs to the operator. */
  predicate Open(section: string, rel: seq<string>, path: seq<string>)
    decreases |path|
  {
    path != [] ==> !IsOperational(section, rel + [path[0]]) && Open(section, rel + [path[0]], path[1..])
  }

  /** Equal, or mappings on both sides. */
  predicate Agree(m: Node, d: Node) {
    SameNode(m, d) || (IsMap(m) && IsMap(d))
  }

  /** A stored tree that is as it was applied last follows the descriptor, under every policy. */
  lemma {:induction false} UndriftedFollows(policy: Policy, section: string, d: Json, v: Json, b: Node,
                                            rel: seq<string>, path: seq<string>)
    requires SameNode(b, Some(v)) && Open(section, rel, path)
    ensures Agree(Lookup(Some(MergeNode(policy, section, d, v, b, rel)), path), Lookup(Some(d), path))
    decreases d
  {
    if d.Obj? && v.Obj? {
      MergedGet(policy, section, d, v, b, rel, "");
      if path != [] {
        var k := path[0];
        MergedGet(policy, section, d, v, b, rel, k);
        SameNodeGet(b, Some(v), k);
        LookupNone(path[1..]);
        if k in d.fields && k in v.fields {
          UndriftedFollows(policy, section, d.fields[k], v.fields[k], Get(b, k), rel + [k], path[1..]);
        }
      }
    } else if PyEq(d, v) {
      SameNodeLookup(Some(v), Some(d), path);
    }
  }

  /** And nothing in its log is drift. */
  lemma UndriftedLog(policy: Policy, section: string, d: Json, v: Json, b: Node, parts: seq<string>, rel: seq<string>)
    requires SameNode(b, Some(v))
    ensures forall c :: c in LogNode(policy, section, d, v, b, parts, rel) ==> c.action in {Add, Update, Remove}
  {
    forall c | c in LogNode(policy, section, d, v, b, parts, rel) ensures c.action in {Add, Update, Remove} {
      var path := LogTells(policy, section, d, v, b, parts, rel, c);
      SameNodeLookup(b, Some(v), path);
    }
  }
}
