/**
 The three-way planner: what the descriptor declares, what the database holds and what was
 last applied are reconciled into one tree, and every decision is logged.
 */
module Planner {
  import opened Texts
  import opened JsonValues

  datatype Policy = Refuse | Keep | Overwrite

  datatype Action = Create | Add | Update | Remove | Overwritten | Kept | Conflict

  /** One log entry. The path is kept as its key parts; `Pointers.Pointer` is its text. */
  datatype Change = Change(action: Action, path: seq<string>, declared: Node, database: Node)

  const WRITING_ACTIONS: set<Action> := {Create, Add, Update, Remove, Overwritten}

  const CHANNEL_STATE: set<seq<string>> :=
    { ["enabled"],
      ["config", "overrides", "activation"],
      ["config", "overrides", "display", "paused_skus"],
      ["config", "overrides", "display", "hidden_skus"] }

  function OperationalState(section: string): set<seq<string>> {
    if section == "channels" then CHANNEL_STATE else {}
  }

  predicate IsOperational(section: string, rel: seq<string>) {
    rel in OperationalState(section)
  }

  /** The database moved away from the last applied version: what stays under each policy. */
  function Drift(policy: Policy, declared: Node, database: Node): Node {
    if policy.Overwrite? then declared else database
  }

  function DriftAction(policy: Policy): Action {
    match policy case Overwrite => Overwritten case Keep => Kept case Refuse => Conflict
  }

  /** The keys both mappings mention. */
  function KeysOf(d: Json, v: Json): set<string>
    requires d.Obj? && v.Obj?
  {
    d.fields.Keys + v.fields.Keys
  }

  /** The present entries of a table of nodes. */
  function Present(nodes: map<string, Node>): map<string, Json> {
    map k | k in nodes && nodes[k].Some? :: nodes[k].value
  }

  /** The logs of the given keys, one after the other. */
  function Concat(keys: seq<string>, logs: map<string, seq<Change>>): seq<Change>
    requires forall k :: k in keys ==> k in logs
  {
    if keys == [] then [] else logs[keys[0]] + Concat(keys[1..], logs)
  }

  /** The merged tree. */
  function MergeNode(policy: Policy, section: string, d: Json, v: Json, b: Node, rel: seq<string>): Json
    decreases d, 2
  {
    if d.Obj? && v.Obj? then
      Obj(Present(FieldTable(policy, section, d, v, b, rel)))
    else if PyEq(d, v) then v
    else if b.Some? && PyEq(b.value, v) then d
    else Drift(policy, Some(d), Some(v)).value
  }

  /** The merged node of every key of two mappings. */
  function FieldTable(policy: Policy, section: string, d: Json, v: Json, b: Node, rel: seq<string>): map<string, Node>
    requires d.Obj? && v.Obj?
    decreases d, 1
  {
    map k | k in KeysOf(d, v) :: MergeField(policy, section, d, v, b, rel, k)
  }

  /** One key of two mappings. */
  function MergeField(policy: Policy, section: string, d: Json, v: Json, b: Node, rel: seq<string>, k: string): Node
    requires d.Obj? && v.Obj?
    decreases d, 0
  {
    var dk, vk, bk := Get(Some(d), k), Get(Some(v), k), Get(b, k);
    if IsOperational(section, rel + [k]) then vk
    else if dk.None? then
      if vk.None? || bk.None? then vk
      else if PyEq(bk.value, vk.value) then None
      else Drift(policy, None, vk)
    else if vk.None? then
      if bk.None? then dk else Drift(policy, dk, None)
    else Some(MergeNode(policy, section, dk.value, vk.value, bk, rel + [k]))
  }

  /** The change log of the same walk, keys in code-point order. */
  function LogNode(policy: Policy, section: string, d: Json, v: Json, b: Node,
                   parts: seq<string>, rel: seq<string>): seq<Change>
    decreases d, 2
  {
    if d.Obj? && v.Obj? then
      Concat(Sorted(KeysOf(d, v)), LogTable(policy, section, d, v, b, parts, rel))
    else if PyEq(d, v) then []
    else if b.Some? && PyEq(b.value, v) then [Change(Update, parts, Some(d), Some(v))]
    else [Change(DriftAction(policy), parts, Some(d), Some(v))]
  }

  function LogTable(policy: Policy, section: string, d: Json, v: Json, b: Node,
                    parts: seq<string>, rel: seq<string>): map<string, seq<Change>>
    requires d.Obj? && v.Obj?
    decreases d, 1
  {
    map k | k in KeysOf(d, v) :: LogField(policy, section, d, v, b, parts, rel, k)
  }

  function LogField(policy: Policy, section: string, d: Json, v: Json, b: Node,
                    parts: seq<string>, rel: seq<string>, k: string): seq<Change>
    requires d.Obj? && v.Obj?
    decreases d, 0
  {
    var dk, vk, bk := Get(Some(d), k), Get(Some(v), k), Get(b, k);
    var path := parts + [k];
    if IsOperational(section, rel + [k]) then []
    else if dk.None? then
      if vk.None? || bk.None? then []
      else if PyEq(bk.value, vk.value) then [Change(Remove, path, None, vk)]
      else [Change(DriftAction(policy), path, None, vk)]
    else if vk.None? then
      if bk.None? then [Change(Add, path, dk, None)]
      else [Change(DriftAction(policy), path, dk, None)]
    else LogNode(policy, section, dk.value, vk.value, bk, path, rel + [k])
  }

  function Restrict(nodes: map<string, Node>, keys: seq<string>): map<string, Node> {
    map k | k in keys && k in nodes :: nodes[k]
  }

  lemma {:induction false} ConcatSnoc(keys: seq<string>, key: string, logs: map<string, seq<Change>>)
    requires key in logs && forall k :: k in keys ==> k in logs
    ensures forall k :: k in keys + [key] ==> k in logs
    ensures Concat(keys + [key], logs) == Concat(keys, logs) + logs[key]
    decreases |keys|
  {
    if keys == [] {
      assert Concat([key][1..], logs) == [];
      assert keys + [key] == [key];
    } else {
      ConcatSnoc(keys[1..], key, logs);
      assert (keys + [key])[1..] == keys[1..] + [key];
      AppendAssociative(logs[keys[0]], Concat(keys[1..], logs), logs[key]);
    }
  }

  lemma PresentSnoc(nodes: map<string, Node>, keys: seq<string>, key: string)
    requires key !in keys && key in nodes
    ensures Present(Restrict(nodes, keys + [key])) == Put(Present(Restrict(nodes, keys)), key, nodes[key])
  {
    var before, after := Restrict(nodes, keys), Restrict(nodes, keys + [key]);
    assert after == before[key := nodes[key]];
    assert Present(after) == Put(Present(before), key, nodes[key]);
  }

  /** One turn of the key loop. */
  lemma LoopStep(keys: seq<string>, i: nat, nodes: map<string, Node>, logs: map<string, seq<Change>>,
                 before: seq<Change>)
    requires i < |keys| && StrictlySorted(keys) && nodes.Keys == logs.Keys == Elements(keys)
    ensures Present(Restrict(nodes, keys[..i+1])) == Put(Present(Restrict(nodes, keys[..i])), keys[i], nodes[keys[i]])
    ensures before + Concat(keys[..i+1], logs) == before + Concat(keys[..i], logs) + logs[keys[i]]
  {
    assert keys[..i+1] == keys[..i] + [keys[i]];
    PresentSnoc(nodes, keys[..i], keys[i]);
    ConcatSnoc(keys[..i], keys[i], logs);
    AppendAssociative(before, Concat(keys[..i], logs), logs[keys[i]]);
  }

  /** The planner object: merging appends to `changes`. */
  class Planner {
    const onDrift: Policy
    var changes: seq<Change>

    constructor (onDrift: Policy)
      ensures this.onDrift == onDrift && changes == []
    {
      this.onDrift := onDrift;
      changes := [];
    }

    method Record(action: Action, parts: seq<string>, declared: Node, database: Node)
      modifies this`changes
      ensures changes == old(changes) + [Change(action, parts, declared, database)]
    {
      changes := changes + [Change(action, parts, declared, database)];
    }

    method OnConflict(parts: seq<string>, declared: Node, database: Node) returns (kept: Node)
      modifies this`changes
      ensures kept == Drift(onDrift, declared, database)
      ensures changes == old(changes) + [Change(DriftAction(onDrift), parts, declared, database)]
    {
      if onDrift == Overwrite {
        Record(Overwritten, parts, declared, database);
        return declared;
      }
      var action := if onDrift == Keep then Kept else Conflict;
      Record(action, parts, declared, database);
      return database;
    }

    method Merge(d: Json, v: Json, b: Node, parts: seq<string>, section: string, rel: seq<string>)
      returns (out: Json)
      modifies this`changes
      ensures out == MergeNode(onDrift, section, d, v, b, rel)
      ensures changes == old(changes) + LogNode(onDrift, section, d, v, b, parts, rel)
      decreases d, 2
    {
      if d.Obj? && v.Obj? {
        var keys := Sorted(KeysOf(d, v));
        var fields := MergeMapping(d, v, b, parts, section, rel, keys,
                                   FieldTable(onDrift, section, d, v, b, rel),
                                   LogTable(onDrift, section, d, v, b, parts, rel));
        return Obj(fields);
      }
      if PyEq(d, v) {
        return v;
      }
      if b.Some? && PyEq(b.value, v) {
        Record(Update, parts, Some(d), Some(v));
        return d;
      }
      var kept := OnConflict(parts, Some(d), Some(v));
      return kept.value;
    }

    /** The key loop of `Merge`. */
    method MergeMapping(d: Json, v: Json, b: Node, parts: seq<string>, section: string, rel: seq<string>,
                        keys: seq<string>, ghost nodes: map<string, Node>, ghost logs: map<string, seq<Change>>)
      returns (fields: map<string, Json>)
      requires d.Obj? && v.Obj? && StrictlySorted(keys)
      requires nodes.Keys == logs.Keys == Elements(keys)
      requires forall k :: k in keys ==>
                 && nodes[k] == MergeField(onDrift, section, d, v, b, rel, k)
                 && logs[k] == LogField(onDrift, section, d, v, b, parts, rel, k)
      modifies this`changes
      ensures fields == Present(nodes)
      ensures changes == old(changes) + Concat(keys, logs)
      decreases d, 1
    {
      fields := map[];
      for i := 0 to |keys|
        invariant fields == Present(Restrict(nodes, keys[..i]))
        invariant changes == old(changes) + Concat(keys[..i], logs)
      {
        var key := keys[i];
        LoopStep(keys, i, nodes, logs, old(changes));
        var kept := MergeKey(d, v, b, parts, section, rel, key);
        fields := Put(fields, key, kept);
      }
      assert keys[..|keys|] == keys;
      assert Restrict(nodes, keys) == nodes;
    }

    /** The body of the key loop of `Merge`. */
    method MergeKey(d: Json, v: Json, b: Node, parts: seq<string>, section: string, rel: seq<string>, key: string)
      returns (kept: Node)
      requires d.Obj? && v.Obj?
      modifies this`changes
      ensures kept == MergeField(onDrift, section, d, v, b, rel, key)
      ensures changes == old(changes) + LogField(onDrift, section, d, v, b, parts, rel, key)
      decreases d, 0
    {
      var dk, vk, bk := Get(Some(d), key), Get(Some(v), key), Get(b, key);
      if IsOperational(section, rel + [key]) {
        return vk;
      }
      if dk.None? {
        if vk.None? || bk.None? {
          return vk;
        } else if PyEq(bk.value, vk.value) {
          Record(Remove, parts + [key], None, vk);
          return None;
        }
        kept := OnConflict(parts + [key], None, vk);
        return;
      }
      if vk.None? {
        if bk.None? {
          Record(Add, parts + [key], dk, None);
          return dk;
        }
        kept := OnConflict(parts + [key], dk, None);
        return;
      }
      var merged := Merge(dk.value, vk.value, bk, parts + [key], section, rel + [key]);
      return Some(merged);
    }
  }
}
