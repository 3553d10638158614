/** JSON values as the Python program sees them, and key paths into them. */
module JsonValues {
  import opened Texts

  datatype Json =
    | Null
    | Bool(b: bool)
    | Int(i: int)
    | Float(r: real)
    | Str(s: string)
    | Arr(items: seq<Json>)
    | Obj(fields: map<string, Json>)

  /** A node that may be absent: the `_MISSING` sentinel is `None`. */
  type Node = Option<Json>

  /** Python compares `True`, `1` and `1.0` as equal at every depth: one representative each. */
  function Norm(j: Json): Json {
    match j
    case Bool(b) => Float(if b then 1.0 else 0.0)
    case Int(i) => Float(i as real)
    case Arr(items) => Arr(seq(|items|, i requires 0 <= i < |items| => Norm(items[i])))
    case Obj(fields) => Obj(map k | k in fields :: Norm(fields[k]))
    case _ => j
  }

  /** Python's `==` on two JSON values. */
  predicate PyEq(a: Json, b: Json) {
    Norm(a) == Norm(b)
  }

  lemma PyEqObj(a: Json, b: Json)
    requires a.Obj? && b.Obj?
    ensures PyEq(a, b) <==>
            a.fields.Keys == b.fields.Keys && forall k :: k in a.fields ==> PyEq(a.fields[k], b.fields[k])
  {
    var na, nb := Norm(a).fields, Norm(b).fields;
    assert na.Keys == a.fields.Keys && nb.Keys == b.fields.Keys;
    assert forall k :: k in na ==> na[k] == Norm(a.fields[k]);
    assert forall k :: k in nb ==> nb[k] == Norm(b.fields[k]);
    assert PyEq(a, b) <==> na == nb;
    assert na == nb <==> na.Keys == nb.Keys && forall k :: k in na ==> na[k] == nb[k];
  }

  /** The child of a node under a key; absent when the node is not a mapping. */
  function Get(n: Node, k: string): Node {
    if n.Some? && n.value.Obj? && k in n.value.fields then Some(n.value.fields[k]) else None
  }

  /** `m` with key `k` holding `n`, or without `k` when `n` is absent. */
  function Put(m: map<string, Json>, k: string, n: Node): map<string, Json> {
    if n.Some? then m[k := n.value] else m - {k}
  }

  function Lookup(n: Node, path: seq<string>): Node
    decreases |path|
  {
    if path == [] then n else Lookup(Get(n, path[0]), path[1..])
  }

  /** The walk `node.get(key) if isinstance(node, dict) else None`: absent reads as null. */
  function WalkOrNull(n: Node, path: seq<string>): Json {
    match Lookup(n, path) case Some(j) => j case None => Null
  }

  /** Absent, or equal in Python's sense. */
  predicate SameNode(a: Node, b: Node) {
    match (a, b)
    case (None, None) => true
    case (Some(x), Some(y)) => PyEq(x, y)
    case _ => false
  }

  lemma SameNodeGet(a: Node, b: Node, k: string)
    requires SameNode(a, b)
    ensures SameNode(Get(a, k), Get(b, k))
  {
    if a.Some? && a.value.Obj? {
      assert b.value.Obj?;
      PyEqObj(a.value, b.value);
    }
  }

  lemma {:induction false} SameNodeLookup(a: Node, b: Node, path: seq<string>)
    requires SameNode(a, b)
    ensures SameNode(Lookup(a, path), Lookup(b, path))
    decreases |path|
  {
    if path != [] {
      SameNodeGet(a, b, path[0]);
      SameNodeLookup(Get(a, path[0]), Get(b, path[0]), path[1..]);
    }
  }

  lemma {:induction false} LookupNone(path: seq<string>)
    ensures Lookup(None, path) == None
  {
    if path != [] { LookupNone(path[1..]); }
  }
}
