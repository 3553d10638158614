/** The order in which whole tables are emptied: referring tables before the tables they refer to. */
module PurgeOrder {
  import opened Texts

  datatype OnDelete = Cascade | SetNull | Protect | DoNothing

  /** A foreign key: the table it points at and what deleting the target does. */
  datatype Link = Link(target: string, onDelete: OnDelete)

  /** The relation fields of a table, by name. */
  type Model = map<string, Link>

  predicate RefersTo(models: map<string, Model>, a: string, b: string) {
    a in models && exists f :: f in models[a] && models[a][f].target == b
  }

  /** A reference between different tables. */
  predicate ChildOf(models: map<string, Model>, a: string, b: string) {
    a != b && RefersTo(models, a, b)
  }

  /** Another pending table refers to this one. */
  predicate HasChild(models: map<string, Model>, pending: set<string>, table: string) {
    exists other :: other in pending && ChildOf(models, other, table)
  }

  /** No table stands after one that it refers to. */
  predicate ReferrersFirst(models: map<string, Model>, ordered: seq<string>) {
    forall i, j :: 0 <= i < j < |ordered| ==> !RefersTo(models, ordered[j], ordered[i])
  }

  function Next(p: seq<string>, i: nat): string
    requires i < |p|
  {
    if i + 1 < |p| then p[i + 1] else p[0]
  }

  /** A closed chain of references between different tables. */
  ghost predicate Cycle(models: map<string, Model>, labels: set<string>, p: seq<string>) {
    p != [] && forall i :: 0 <= i < |p| ==> p[i] in labels && ChildOf(models, p[i], Next(p, i))
  }

  ghost predicate HasCycle(models: map<string, Model>, labels: set<string>) {
    exists p :: Cycle(models, labels, p)
  }

  // ---- No source, hence a cycle ----

  lemma {:induction false} Repeats(w: seq<string>, s: set<string>) returns (i: nat, j: nat)
    requires |w| > |s| && forall k :: 0 <= k < |w| ==> w[k] in s
    ensures i < j < |w| && w[i] == w[j]
    decreases |w|
  {
    var last := w[|w| - 1];
    if k :| 0 <= k < |w| - 1 && w[k] == last {
      i, j := k, |w| - 1;
    } else {
      i, j := Repeats(w[..|w| - 1], s - {last});
    }
  }

  /** A chain of referrers as long as asked for. */
  lemma {:induction false} Chain(models: map<string, Model>, s: set<string>, n: nat) returns (w: seq<string>)
    requires s != {} && forall x {:trigger HasChild(models, s, x)} :: x in s ==> HasChild(models, s, x)
    ensures |w| == n + 1 && forall k :: 0 <= k < |w| ==> w[k] in s
    ensures forall k :: 0 <= k < n ==> ChildOf(models, w[k + 1], w[k])
  {
    if n == 0 {
      var x :| x in s;
      w := [x];
    } else {
      var v := Chain(models, s, n - 1);
      assert HasChild(models, s, v[n - 1]);
      var x :| x in s && ChildOf(models, x, v[n - 1]);
      w := v + [x];
      forall k | 0 <= k < n ensures ChildOf(models, w[k + 1], w[k]) {
        if k < n - 1 { assert ChildOf(models, v[k + 1], v[k]); }
      }
    }
  }

  function Reverse(w: seq<string>): (r: seq<string>)
    ensures |r| == |w| && forall k :: 0 <= k < |w| ==> r[k] == w[|w| - 1 - k]
  {
    if w == [] then [] else Reverse(w[1..]) + [w[0]]
  }

  lemma NoSourceMeansCycle(models: map<string, Model>, s: set<string>, labels: set<string>)
    requires s != {} && s <= labels && forall x {:trigger HasChild(models, s, x)} :: x in s ==> HasChild(models, s, x)
    ensures HasCycle(models, labels)
  {
    var w := Chain(models, s, |s|);
    var i, j := Repeats(w, s);
    var p := Reverse(w[i + 1..j + 1]);
    forall k | 0 <= k < |p| ensures p[k] in labels && ChildOf(models, p[k], Next(p, k)) {
      var m := j - k - 1;
      assert p[k] == w[m + 1] && Next(p, k) == w[m];
    }
    assert Cycle(models, labels, p);
  }

  // ---- A cycle leaves no order ----

  lemma {:induction false} Highest(at: seq<nat>) returns (k: nat)
    requires at != []
    ensures k < |at| && forall i :: 0 <= i < |at| ==> at[i] <= at[k]
    decreases |at|
  {
    k := |at| - 1;
    if |at| > 1 {
      var init := at[..|at| - 1];
      var m := Highest(init);
      assert forall i :: 0 <= i < |init| ==> at[i] == init[i];
      if at[m] > at[k] { k := m; }
    }
  }

  lemma {:induction false} Places(ordered: seq<string>, p: seq<string>) returns (at: seq<nat>)
    requires forall i :: 0 <= i < |p| ==> p[i] in ordered
    ensures |at| == |p| && forall i :: 0 <= i < |p| ==> at[i] < |ordered| && ordered[at[i]] == p[i]
    decreases |p|
  {
    if p == [] {
      at := [];
    } else {
      var init := Places(ordered, p[..|p| - 1]);
      assert p[|p| - 1] in ordered;
      var i: nat :| i < |ordered| && ordered[i] == p[|p| - 1];
      at := init + [i];
    }
  }

  lemma CycleHasNoOrder(models: map<string, Model>, ordered: seq<string>)
    requires HasCycle(models, Elements(ordered))
    ensures !ReferrersFirst(models, ordered)
  {
    var p :| Cycle(models, Elements(ordered), p);
    forall i | 0 <= i < |p| ensures p[i] in ordered {
      assert ChildOf(models, p[i], Next(p, i));
    }
    var at := Places(ordered, p);
    var k := Highest(at);
    var next := if k + 1 < |p| then k + 1 else 0;
    assert ChildOf(models, p[k], Next(p, k));
    assert at[next] <= at[k] && p[next] == Next(p, k) && p[next] != p[k];
    assert RefersTo(models, ordered[at[k]], ordered[at[next]]);
  }

  // ---- The loop ----

  /** The tables placed so far are in order, and nothing pending refers to them. */
  ghost predicate Placed(models: map<string, Model>, labels: set<string>, ordered: seq<string>, pending: set<string>) {
    && NoRepeats(ordered) && Elements(ordered) !! pending && Elements(ordered) + pending == labels
    && ReferrersFirst(models, ordered)
    && forall x, y :: x in ordered && y in pending ==> !RefersTo(models, y, x)
  }

  lemma PlaceOne(models: map<string, Model>, labels: set<string>, ordered: seq<string>, pending: set<string>,
                 table: string)
    requires Placed(models, labels, ordered, pending) && table in pending && !HasChild(models, pending, table)
    ensures Placed(models, labels, ordered + [table], pending - {table})
  {
    var next := ordered + [table];
    assert Elements(next) == Elements(ordered) + {table};
    forall i, j | 0 <= i < j < |next| ensures next[i] != next[j] && !RefersTo(models, next[j], next[i]) {
      assert next[i] == ordered[i];
      assert ordered[i] in ordered;
    }
  }

  lemma PlaceRest(labels: set<string>, ordered: seq<string>, pending: set<string>)
    requires NoRepeats(ordered) && Elements(ordered) !! pending && Elements(ordered) + pending == labels
    ensures NoRepeats(ordered + Sorted(pending)) && Elements(ordered + Sorted(pending)) == labels
  {
    var rest := Sorted(pending);
    assert forall i :: 0 <= i < |rest| ==> rest[i] in rest;
    assert forall i :: 0 <= i < |ordered| ==> ordered[i] in Elements(ordered);
    assert Elements(ordered + rest) == Elements(ordered) + Elements(rest);
  }

  /**
   Every table exactly once; referring tables come first exactly when the references have no cycle,
   and only a cycle makes the loop give up on the order.
   */
  method DeleteOrder(models: map<string, Model>, labels: set<string>) returns (ordered: seq<string>)
    ensures NoRepeats(ordered) && Elements(ordered) == labels
    ensures ReferrersFirst(models, ordered) <==> !HasCycle(models, labels)
  {
    var pending := labels;
    ordered := [];
    while pending != {}
      invariant Placed(models, labels, ordered, pending)
      decreases |pending|
    {
      var progress, placed, left := Pass(models, labels, ordered, pending);
      if !progress {
        NoSourceMeansCycle(models, pending, labels);
        PlaceRest(labels, ordered, pending);
        ordered := ordered + Sorted(pending);
        CycleHasNoOrder(models, ordered);
        return;
      }
      ordered, pending := placed, left;
    }
    if HasCycle(models, labels) { CycleHasNoOrder(models, ordered); }
  }

  /** One pass over the pending tables, in name order, placing those nothing pending refers to. */
  method Pass(models: map<string, Model>, ghost labels: set<string>, ordered: seq<string>, pending: set<string>)
    returns (progress: bool, placed: seq<string>, left: set<string>)
    requires Placed(models, labels, ordered, pending)
    ensures Placed(models, labels, placed, left)
    ensures if progress then |left| < |pending|
            else left == pending && placed == ordered && forall x {:trigger HasChild(models, pending, x)} ::
                x in pending ==> HasChild(models, pending, x)
  {
    var pass := Sorted(pending);
    progress, placed, left := false, ordered, pending;
    for i := 0 to |pass|
      invariant Placed(models, labels, placed, left)
      invariant MidPass(models, pending, pass, i, progress, left)
      invariant !progress ==> placed == ordered
    {
      var table := pass[i];
      var child := HasChild(models, left, table);
      if !child {
        PlaceOne(models, labels, placed, left, table);
        placed, left, progress := placed + [table], left - {table}, true;
      }
    }
  }

  /** What a pass knows after its first `i` tables. */
  ghost predicate MidPass(models: map<string, Model>, pending: set<string>, pass: seq<string>, i: nat,
                          progress: bool, left: set<string>)
    requires i <= |pass|
  {
    && left <= pending && (forall k :: i <= k < |pass| ==> pass[k] in left)
    && (progress ==> |left| < |pending|)
    && (!progress ==> left == pending && forall k :: 0 <= k < i ==> HasChild(models, pending, pass[k]))
  }

}
