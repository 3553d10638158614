/** A history of commits with at most one parent each, and which of them touched a component. */
module Ancestry {
  import opened Texts

  type Sha = string
  type Files = map<string, string>

  /** Each commit's tree and parent; `age` witnesses that no commit is its own ancestor. */
  datatype History = History(trees: map<Sha, Files>, parents: map<Sha, Sha>, age: map<Sha, nat>)

  predicate Linear(h: History) {
    && h.age.Keys == h.trees.Keys && h.parents.Keys <= h.trees.Keys
    && forall c :: c in h.parents ==> h.parents[c] in h.trees && h.age[h.parents[c]] < h.age[c]
  }

  /** The commit and everything before it, latest first; empty for a commit that is not known. */
  function Chain(h: History, c: Sha): seq<Sha>
    requires Linear(h)
    decreases if c in h.age then h.age[c] else 0
  {
    if c !in h.trees then [] else [c] + if c in h.parents then Chain(h, h.parents[c]) else []
  }

  predicate IsAncestor(h: History, a: Sha, b: Sha)
    requires Linear(h)
  {
    a in Chain(h, b)
  }

  /** The part of a tree that belongs to a component. */
  function Part(files: Files, belongs: string -> bool): Files {
    map p | p in files && belongs(p) :: files[p]
  }

  function PartAt(h: History, c: Sha, belongs: string -> bool): Files {
    if c in h.trees then Part(h.trees[c], belongs) else map[]
  }

  predicate Touches(h: History, c: Sha, belongs: string -> bool) {
    PartAt(h, c, belongs) != if c in h.parents then PartAt(h, h.parents[c], belongs) else map[]
  }

  /** The latest commit up to `ref` that touched the component. */
  function LastTouching(h: History, ref: Sha, belongs: string -> bool): Option<Sha>
    requires Linear(h)
    decreases if ref in h.age then h.age[ref] else 0
  {
    if ref !in h.trees then None
    else if Touches(h, ref, belongs) then Some(ref)
    else if ref in h.parents then LastTouching(h, h.parents[ref], belongs)
    else None
  }

  lemma {:induction false} ChainTransitive(h: History, a: Sha, b: Sha, c: Sha)
    requires Linear(h) && IsAncestor(h, a, b) && IsAncestor(h, b, c)
    ensures IsAncestor(h, a, c)
    decreases if c in h.age then h.age[c] else 0
  {
    if b != c { ChainTransitive(h, a, b, h.parents[c]); }
  }

  lemma {:induction false} OlderInChain(h: History, a: Sha, c: Sha)
    requires Linear(h) && IsAncestor(h, a, c)
    ensures a in h.trees && c in h.trees && h.age[a] <= h.age[c] && (h.age[a] == h.age[c] ==> a == c)
    decreases if c in h.age then h.age[c] else 0
  {
    if a != c { OlderInChain(h, a, h.parents[c]); }
  }

  /** No commit is both before and after another. */
  lemma AncestryIsOrder(h: History, a: Sha, b: Sha)
    requires Linear(h) && IsAncestor(h, a, b) && IsAncestor(h, b, a)
    ensures a == b
  {
    OlderInChain(h, a, b);
    OlderInChain(h, b, a);
  }

  /** The commit found touched the component, lies before `ref`, and nothing between the two touched it. */
  lemma {:induction false} LastTouchingIsLast(h: History, ref: Sha, belongs: string -> bool)
    requires Linear(h)
    ensures match LastTouching(h, ref, belongs)
            case None => forall c :: IsAncestor(h, c, ref) ==> !Touches(h, c, belongs)
            case Some(last) => IsAncestor(h, last, ref) && Touches(h, last, belongs)
                               && forall c :: IsAncestor(h, c, ref) && Touches(h, c, belongs) ==> IsAncestor(h, c, last)
    decreases if ref in h.age then h.age[ref] else 0
  {
    if ref in h.trees && !Touches(h, ref, belongs) && ref in h.parents {
      LastTouchingIsLast(h, h.parents[ref], belongs);
    }
  }

  /** Without a touching commit the component has no files. */
  lemma {:induction false} UntouchedIsEmpty(h: History, ref: Sha, belongs: string -> bool)
    requires Linear(h) && LastTouching(h, ref, belongs) == None
    ensures PartAt(h, ref, belongs) == map[]
    decreases if ref in h.age then h.age[ref] else 0
  {
    if ref in h.parents { UntouchedIsEmpty(h, h.parents[ref], belongs); }
  }

  /** A commit between the last one that touched the component and `ref` has the component as `ref` has it. */
  lemma {:induction false} ContainedIsSame(h: History, commit: Sha, ref: Sha, belongs: string -> bool)
    requires Linear(h) && LastTouching(h, ref, belongs).Some?
    requires IsAncestor(h, LastTouching(h, ref, belongs).value, commit) && IsAncestor(h, commit, ref)
    ensures PartAt(h, commit, belongs) == PartAt(h, ref, belongs)
    decreases if ref in h.age then h.age[ref] else 0
  {
    if commit != ref {
      if Touches(h, ref, belongs) {
        AncestryIsOrder(h, ref, commit);
      } else {
        ContainedIsSame(h, commit, h.parents[ref], belongs);
      }
    }
  }
}
