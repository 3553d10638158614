/** What the change log of a merge says: it replays to the merged tree, entry by entry apart. */
module PlanLog {
  import opened Texts
  import opened JsonValues
  import opened Planner

  /** Reading one key of a merged mapping. */
  lemma MergedGet(policy: Policy, section: string, d: Json, v: Json, b: Node, rel: seq<string>, k: string)
    requires d.Obj? && v.Obj?
    ensures MergeNode(policy, section, d, v, b, rel).Obj?
    ensures Get(Some(MergeNode(policy, section, d, v, b, rel)), k) == MergeField(policy, section, d, v, b, rel, k)
  {
    var nodes := FieldTable(policy, section, d, v, b, rel);
    assert MergeNode(policy, section, d, v, b, rel) == Obj(Present(nodes));
    assert k in nodes ==> nodes[k] == MergeField(policy, section, d, v, b, rel, k);
  }

  // ---- Replay ----

  /** The tree with the node at `path` replaced; absent replaces by deletion. */
  function SetAt(n: Node, path: seq<string>, x: Node): Node
    decreases |path|
  {
    if path == [] then x
    else if n.Some? && n.value.Obj? then
      Some(Obj(Put(n.value.fields, path[0], SetAt(Get(n, path[0]), path[1..], x))))
    else n
  }

  /** The writing entries of a log, applied in order; `skip` leading path parts name the root. */
  function Replay(n: Node, log: seq<Change>, skip: nat): Node
    decreases |log|
  {
    if log == [] then n else Replay(ReplayOne(n, log[0], skip), log[1..], skip)
  }

  function ReplayOne(n: Node, c: Change, skip: nat): Node {
    if c.action in WRITING_ACTIONS && skip <= |c.path| then SetAt(n, c.path[skip..], c.declared) else n
  }

  ghost predicate Under(log: seq<Change>, prefix: seq<string>) {
    forall c :: c in log ==> prefix <= c.path
  }

  lemma {:induction false} ConcatUnder(keys: seq<string>, logs: map<string, seq<Change>>, parts: seq<string>)
    requires forall k :: k in keys ==> k in logs && Under(logs[k], parts + [k])
    ensures Under(Concat(keys, logs), parts)
  {
    if keys != [] {
      ConcatUnder(keys[1..], logs, parts);
      forall c | c in logs[keys[0]] ensures parts <= c.path { assert parts + [keys[0]] <= c.path; }
    }
  }

  lemma {:induction false} LogUnder(policy: Policy, section: string, d: Json, v: Json, b: Node,
                                    parts: seq<string>, rel: seq<string>)
    ensures Under(LogNode(policy, section, d, v, b, parts, rel), parts)
    decreases d, 1
  {
    if d.Obj? && v.Obj? {
      var logs := LogTable(policy, section, d, v, b, parts, rel);
      forall k | k in KeysOf(d, v) ensures Under(logs[k], parts + [k]) {
        LogFieldUnder(policy, section, d, v, b, parts, rel, k);
      }
      ConcatUnder(Sorted(KeysOf(d, v)), logs, parts);
    }
  }

  lemma {:induction false} LogFieldUnder(policy: Policy, section: string, d: Json, v: Json, b: Node,
                                         parts: seq<string>, rel: seq<string>, k: string)
    requires d.Obj? && v.Obj?
    ensures Under(LogField(policy, section, d, v, b, parts, rel, k), parts + [k])
    decreases d, 0
  {
    if k in d.fields && k in v.fields {
      LogUnder(policy, section, d.fields[k], v.fields[k], Get(b, k), parts + [k], rel + [k]);
    }
  }

  lemma {:induction false} ReplayAppend(n: Node, a: seq<Change>, b: seq<Change>, skip: nat)
    ensures Replay(n, a + b, skip) == Replay(Replay(n, a, skip), b, skip)
    decreases |a|
  {
    if a == [] {
      assert a + b == b;
    } else {
      assert (a + b)[1..] == a[1..] + b;
      ReplayAppend(ReplayOne(n, a[0], skip), a[1..], b, skip);
    }
  }

  /** Entries below one key touch only that key. */
  lemma {:induction false} ReplayUnderKey(n: Node, log: seq<Change>, parts: seq<string>, k: string)
    requires n.Some? && n.value.Obj?
    requires Under(log, parts + [k])
    ensures Replay(n, log, |parts|) == Some(Obj(Put(n.value.fields, k, Replay(Get(n, k), log, |parts| + 1))))
    decreases |log|
  {
    if log == [] {
      assert Put(n.value.fields, k, Get(n, k)) == n.value.fields;
    } else {
      var c := log[0];
      assert parts + [k] <= c.path;
      assert c.path[|parts|..][1..] == c.path[|parts| + 1..] && c.path[|parts|..][0] == k;
      var next := ReplayOne(n, c, |parts|);
      var child := ReplayOne(Get(n, k), c, |parts| + 1);
      assert Put(n.value.fields, k, Get(n, k)) == n.value.fields;
      assert next == Some(Obj(Put(n.value.fields, k, child)));
      assert Get(next, k) == child;
      ReplayUnderKey(next, log[1..], parts, k);
      var last := Replay(child, log[1..], |parts| + 1);
      assert Put(Put(n.value.fields, k, child), k, last) == Put(n.value.fields, k, last);
    }
  }

  /** Replaying the logs of distinct keys changes each key by its own log. */
  lemma {:induction false} ReplayKeys(n: Node, keys: seq<string>, logs: map<string, seq<Change>>, parts: seq<string>)
    requires n.Some? && n.value.Obj? && StrictlySorted(keys)
    requires forall k :: k in keys ==> k in logs && Under(logs[k], parts + [k])
    ensures var r := Replay(n, Concat(keys, logs), |parts|);
            && r.Some? && r.value.Obj?
            && forall k :: Get(r, k) == if k in keys then Replay(Get(n, k), logs[k], |parts| + 1) else Get(n, k)
    decreases |keys|
  {
    ConcatUnder(keys, logs, parts);
    if keys != [] {
      var k := keys[0];
      ReplayUnderKey(n, logs[k], parts, k);
      var next := Replay(n, logs[k], |parts|);
      ReplayAppend(n, logs[k], Concat(keys[1..], logs), |parts|);
      ReplayKeys(next, keys[1..], logs, parts);
      assert k !in keys[1..];
      forall x ensures x in keys <==> x == k || x in keys[1..] { assert keys == [k] + keys[1..]; }
    }
  }

  lemma ObjByKeys(a: Node, b: Node)
    requires a.Some? && a.value.Obj? && b.Some? && b.value.Obj?
    requires forall k :: Get(a, k) == Get(b, k)
    ensures a == b
  {
    forall k ensures k in a.value.fields <==> k in b.value.fields { assert Get(a, k) == Get(b, k); }
    forall k | k in a.value.fields ensures a.value.fields[k] == b.value.fields[k] { assert Get(a, k) == Get(b, k); }
    assert a.value.fields == b.value.fields;
  }

  /** The writing entries of the log turn the database tree into exactly the merged tree. */
  lemma {:induction false} LogReplays(policy: Policy, section: string, d: Json, v: Json, b: Node,
                                      parts: seq<string>, rel: seq<string>)
    ensures Replay(Some(v), LogNode(policy, section, d, v, b, parts, rel), |parts|)
         == Some(MergeNode(policy, section, d, v, b, rel))
    decreases d, 1
  {
    LogUnder(policy, section, d, v, b, parts, rel);
    if d.Obj? && v.Obj? {
      var keys := Sorted(KeysOf(d, v));
      var logs := LogTable(policy, section, d, v, b, parts, rel);
      forall k | k in keys ensures Under(logs[k], parts + [k]) {
        LogFieldUnder(policy, section, d, v, b, parts, rel, k);
      }
      ReplayKeys(Some(v), keys, logs, parts);
      var r := Replay(Some(v), Concat(keys, logs), |parts|);
      var m := MergeNode(policy, section, d, v, b, rel);
      MergedGet(policy, section, d, v, b, rel, "");
      forall k ensures Get(r, k) == Get(Some(m), k) {
        MergedGet(policy, section, d, v, b, rel, k);
        if k in keys { FieldReplays(policy, section, d, v, b, parts, rel, k); }
      }
      ObjByKeys(r, Some(m));
    } else {
      assert parts[|parts|..] == [];
    }
  }

  lemma {:induction false} FieldReplays(policy: Policy, section: string, d: Json, v: Json, b: Node,
                                        parts: seq<string>, rel: seq<string>, k: string)
    requires d.Obj? && v.Obj?
    ensures Replay(Get(Some(v), k), LogField(policy, section, d, v, b, parts, rel, k), |parts| + 1)
         == MergeField(policy, section, d, v, b, rel, k)
    decreases d, 0
  {
    if IsOperational(section, rel + [k]) {
    } else if k in d.fields && k in v.fields {
      LogReplays(policy, section, d.fields[k], v.fields[k], Get(b, k), parts + [k], rel + [k]);
    } else {
    }
  }

  // ---- Paths ----

  predicate Apart(p: seq<string>, q: seq<string>) {
    !(p <= q) && !(q <= p)
  }

  /** No logged path is equal to, above or below another. */
  ghost predicate PathsApart(log: seq<Change>) {
    forall i, j :: 0 <= i < j < |log| ==> Apart(log[i].path, log[j].path)
  }

  lemma {:induction false} ConcatApart(keys: seq<string>, logs: map<string, seq<Change>>, parts: seq<string>)
    requires StrictlySorted(keys)
    requires forall k :: k in keys ==> k in logs && Under(logs[k], parts + [k]) && PathsApart(logs[k])
    ensures PathsApart(Concat(keys, logs))
    decreases |keys|
  {
    if keys != [] {
      var first, rest := logs[keys[0]], Concat(keys[1..], logs);
      ConcatApart(keys[1..], logs, parts);
      forall i, j | 0 <= i < |first| && 0 <= j < |rest| ensures Apart(first[i].path, rest[j].path) {
        var k := ConcatOrigin(keys[1..], logs, parts, rest[j]);
        assert first[i] in first && parts + [keys[0]] <= first[i].path;
        assert first[i].path[|parts|] == keys[0] && rest[j].path[|parts|] == k;
      }
      assert Concat(keys, logs) == first + rest;
    }
  }

  lemma {:induction false} ConcatOrigin(keys: seq<string>, logs: map<string, seq<Change>>, parts: seq<string>,
                                        c: Change)
    returns (k: string)
    requires forall k :: k in keys ==> k in logs && Under(logs[k], parts + [k])
    requires c in Concat(keys, logs)
    ensures k in keys && c in logs[k] && |parts| < |c.path| && c.path[|parts|] == k
    decreases |keys|
  {
    if c in logs[keys[0]] {
      k := keys[0];
      assert parts + [k] <= c.path;
    } else {
      k := ConcatOrigin(keys[1..], logs, parts, c);
    }
  }

  lemma {:induction false} LogPathsApart(policy: Policy, section: string, d: Json, v: Json, b: Node,
                                         parts: seq<string>, rel: seq<string>)
    ensures PathsApart(LogNode(policy, section, d, v, b, parts, rel))
    decreases d
  {
    if d.Obj? && v.Obj? {
      var logs := LogTable(policy, section, d, v, b, parts, rel);
      forall k | k in KeysOf(d, v) ensures Under(logs[k], parts + [k]) && PathsApart(logs[k]) {
        LogFieldUnder(policy, section, d, v, b, parts, rel, k);
        if k in d.fields && k in v.fields {
          LogPathsApart(policy, section, d.fields[k], v.fields[k], Get(b, k), parts + [k], rel + [k]);
        }
      }
      ConcatApart(Sorted(KeysOf(d, v)), logs, parts);
    }
  }

  // ---- Writing entries ----

  ghost predicate HasWrite(log: seq<Change>) {
    exists c :: c in log && c.action in WRITING_ACTIONS
  }

  lemma {:induction false} ConcatHasWrite(keys: seq<string>, logs: map<string, seq<Change>>)
    requires forall k :: k in keys ==> k in logs
    ensures HasWrite(Concat(keys, logs)) <==> exists k :: k in keys && HasWrite(logs[k])
    decreases |keys|
  {
    if keys != [] {
      ConcatHasWrite(keys[1..], logs);
      assert forall k :: k in keys <==> k == keys[0] || k in keys[1..];
      var first, rest := logs[keys[0]], Concat(keys[1..], logs);
      assert forall c :: c in first + rest <==> c in first || c in rest;
    }
  }

  /** The log has a writing entry exactly when the merged tree differs from the database. */
  lemma {:induction false} WritesIffChanged(policy: Policy, section: string, d: Json, v: Json, b: Node,
                                            parts: seq<string>, rel: seq<string>)
    ensures HasWrite(LogNode(policy, section, d, v, b, parts, rel)) <==> MergeNode(policy, section, d, v, b, rel) != v
    decreases d, 1
  {
    var log, m := LogNode(policy, section, d, v, b, parts, rel), MergeNode(policy, section, d, v, b, rel);
    if d.Obj? && v.Obj? {
      var keys := Sorted(KeysOf(d, v));
      var logs := LogTable(policy, section, d, v, b, parts, rel);
      ConcatHasWrite(keys, logs);
      MergedGet(policy, section, d, v, b, rel, "");
      forall k ensures k in keys && HasWrite(logs[k]) <==> Get(Some(m), k) != Get(Some(v), k) {
        MergedGet(policy, section, d, v, b, rel, k);
        FieldWritesIffChanged(policy, section, d, v, b, parts, rel, k);
        assert k !in keys ==> MergeField(policy, section, d, v, b, rel, k) == None;
      }
      if forall k :: Get(Some(m), k) == Get(Some(v), k) { ObjByKeys(Some(m), Some(v)); }
    } else if log != [] {
      assert log[0] in log;
    }
  }

  lemma {:induction false} FieldWritesIffChanged(policy: Policy, section: string, d: Json, v: Json, b: Node,
                                                 parts: seq<string>, rel: seq<string>, k: string)
    requires d.Obj? && v.Obj?
    ensures HasWrite(LogField(policy, section, d, v, b, parts, rel, k))
       <==> MergeField(policy, section, d, v, b, rel, k) != Get(Some(v), k)
    decreases d, 0
  {
    var log := LogField(policy, section, d, v, b, parts, rel, k);
    if !IsOperational(section, rel + [k]) && k in d.fields && k in v.fields {
      WritesIffChanged(policy, section, d.fields[k], v.fields[k], Get(b, k), parts + [k], rel + [k]);
    } else if log != [] {
      assert log[0] in log;
    }
  }
}
