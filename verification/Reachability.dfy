/** Walks over the graph of qualified dependencies: what an entry point reaches, what a unit observes. */
module Reachability {
  import opened Texts

  /** The dependencies of every reference that can be resolved to a definition. */
  type Graph = map<string, set<string>>

  // ---- The least closed set ----

  predicate Closed(g: Graph, s: set<string>) {
    forall x :: x in s && x in g ==> g[x] <= s
  }

  function Direct(g: Graph, s: set<string>): set<string> {
    set x, y | x in s && x in g && y in g[x] :: y
  }

  function Universe(g: Graph, start: set<string>): set<string> {
    start + set x, y | x in g && y in g[x] :: y
  }

  /** Everything reached from `start`, layer by layer. */
  function Closure(g: Graph, start: set<string>): (r: set<string>)
    ensures start <= r && Closed(g, r)
  {
    Grow(g, start, Universe(g, start))
  }

  function Grow(g: Graph, s: set<string>, all: set<string>): (r: set<string>)
    requires s <= all && forall x :: x in g ==> g[x] <= all
    ensures s <= r <= all && Closed(g, r)
    decreases all - s
  {
    var next := s + Direct(g, s);
    if next == s then
      assert forall x :: x in s && x in g ==> g[x] <= Direct(g, s);
      s
    else Grow(g, next, all)
  }

  lemma {:induction false} GrowIsLeast(g: Graph, s: set<string>, all: set<string>, c: set<string>)
    requires s <= all && forall x :: x in g ==> g[x] <= all
    requires s <= c && Closed(g, c)
    ensures Grow(g, s, all) <= c
    decreases all - s
  {
    var next := s + Direct(g, s);
    if next != s { GrowIsLeast(g, next, all, c); }
  }

  /** The closure is contained in every closed set that contains the start. */
  lemma ClosureIsLeast(g: Graph, start: set<string>, c: set<string>)
    requires start <= c && Closed(g, c)
    ensures Closure(g, start) <= c
  {
    GrowIsLeast(g, start, Universe(g, start), c);
  }

  /** A chain of dependencies. */
  ghost predicate Path(g: Graph, p: seq<string>) {
    p != [] && forall i :: 0 <= i < |p| - 1 ==> p[i] in g && p[i + 1] in g[p[i]]
  }

  ghost predicate Reaches(g: Graph, start: set<string>, x: string) {
    exists p :: Path(g, p) && p[0] in start && p[|p| - 1] == x
  }

  /** The closure is what chains of dependencies reach. */
  lemma ClosureIsReach(g: Graph, start: set<string>, x: string)
    ensures x in Closure(g, start) <==> Reaches(g, start, x)
  {
    if Reaches(g, start, x) {
      var p :| Path(g, p) && p[0] in start && p[|p| - 1] == x;
      PathStays(g, p, Closure(g, start));
    }
    var all := Universe(g, start);
    var c := ReachedIn(g, start, all);
    forall y | y in start ensures Reaches(g, start, y) {
      assert Path(g, [y]);
    }
    forall y, z | y in c && y in g && z in g[y] ensures z in c { ReachOneMore(g, start, y, z); }
    ClosureIsLeast(g, start, c);
  }

  ghost function ReachedIn(g: Graph, start: set<string>, all: set<string>): set<string> {
    set y | y in all && Reaches(g, start, y)
  }

  lemma {:induction false} PathStays(g: Graph, p: seq<string>, c: set<string>)
    requires Path(g, p) && p[0] in c && Closed(g, c)
    ensures p[|p| - 1] in c
    decreases |p|
  {
    if |p| > 1 {
      assert p[0] in g && p[1] in g[p[0]];
      assert Path(g, p[1..]) by {
        forall i | 0 <= i < |p[1..]| - 1 ensures p[1..][i] in g && p[1..][i + 1] in g[p[1..][i]] {
          assert p[i + 1] in g;
        }
      }
      PathStays(g, p[1..], c);
    }
  }

  lemma ReachOneMore(g: Graph, start: set<string>, y: string, z: string)
    requires Reaches(g, start, y) && y in g && z in g[y]
    ensures Reaches(g, start, z)
  {
    var p :| Path(g, p) && p[0] in start && p[|p| - 1] == y;
    var q := p + [z];
    forall i | 0 <= i < |q| - 1 ensures q[i] in g && q[i + 1] in g[q[i]] {
      if i < |p| - 1 { assert p[i] in g; }
    }
    assert Path(g, q);
  }

  // ---- The worklist ----

  /** What the walks keep: all that is pending or seen is reached, and what has been expanded leads nowhere else. */
  ghost predicate Walking(g: Graph, start: set<string>, seen: set<string>, pending: seq<string>) {
    && start <= seen + Elements(pending) <= Closure(g, start)
    && forall x :: x in seen && x in g ==> g[x] <= seen + Elements(pending)
  }

  lemma WalkOver(g: Graph, start: set<string>, seen: set<string>)
    requires Walking(g, start, seen, [])
    ensures seen == Closure(g, start)
  {
    assert seen + Elements([]) == seen;
    ClosureIsLeast(g, start, seen);
  }

  /** The last pending reference is dropped when it was seen before. */
  lemma WalkDrops(g: Graph, start: set<string>, seen: set<string>, pending: seq<string>)
    requires pending != [] && Walking(g, start, seen, pending) && pending[|pending| - 1] in seen
    ensures Walking(g, start, seen, pending[..|pending| - 1])
  {
    PopElements(pending);
  }

  /** Otherwise it is seen, and what it depends on becomes pending. */
  lemma WalkExpands(g: Graph, start: set<string>, seen: set<string>, pending: seq<string>, more: seq<string>)
    requires pending != [] && Walking(g, start, seen, pending)
    requires var x := pending[|pending| - 1];
             Elements(more) == if x in g then g[x] - (seen + {x}) else {}
    ensures var x := pending[|pending| - 1];
            && x in Closure(g, start)
            && Walking(g, start, seen + {x}, pending[..|pending| - 1] + more)
  {
    var x := pending[|pending| - 1];
    PopElements(pending);
    assert Elements(pending[..|pending| - 1] + more) == Elements(pending[..|pending| - 1]) + Elements(more);
  }

  lemma PopElements(pending: seq<string>)
    requires pending != []
    ensures Elements(pending) == Elements(pending[..|pending| - 1]) + {pending[|pending| - 1]}
  {
    assert pending == pending[..|pending| - 1] + [pending[|pending| - 1]];
  }

  /** A set in some order; callers may rely on none. */
  method Enumerate(s: set<string>) returns (xs: seq<string>)
    ensures Elements(xs) == s
  {
    xs := Sorted(s);
  }

  method Walk(g: Graph, entrypoint: string) returns (seen: set<string>)
    ensures seen == Closure(g, {entrypoint})
  {
    var pending := [entrypoint];
    seen := {};
    ghost var all := Closure(g, {entrypoint});
    while pending != []
      invariant Walking(g, {entrypoint}, seen, pending)
      decreases |all - seen|, |pending|
    {
      var reference := pending[|pending| - 1];
      if reference in seen {
        WalkDrops(g, {entrypoint}, seen, pending);
        pending := pending[..|pending| - 1];
      } else {
        var more := Enumerate(if reference in g then g[reference] - (seen + {reference}) else {});
        WalkExpands(g, {entrypoint}, seen, pending, more);
        seen := seen + {reference};
        pending := pending[..|pending| - 1] + more;
      }
    }
    WalkOver(g, {entrypoint}, seen);
  }

  // ---- The authorities an entry point reaches ----

  predicate MemberOf(reference: string, authority: string) {
    authority + "." <= reference
  }

  method ReachableSymbols(g: Graph, entrypoint: string, authorities: set<string>) returns (reached: set<string>)
    ensures reached <= authorities
    ensures forall a :: a in authorities ==>
              (a in reached <==> exists r :: Reaches(g, {entrypoint}, r) && (r == a || MemberOf(r, a)))
  {
    var seen := Walk(g, entrypoint);
    reached := set a | a in authorities && (a in seen || exists r :: r in seen && MemberOf(r, a));
    forall r ensures r in seen <==> Reaches(g, {entrypoint}, r) { ClosureIsReach(g, {entrypoint}, r); }
  }

  /** A member of an authority is written after it, behind a dot. */
  lemma MemberExactly(reference: string, authority: string)
    ensures MemberOf(reference, authority) <==> exists member: string :: reference == authority + "." + member
  {
    if MemberOf(reference, authority) {
      var member: string := reference[|authority| + 1..];
      assert reference == authority + "." + member;
    }
  }
}
