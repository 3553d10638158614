/** What a semantic unit is observed to use: its symbols, the helpers behind them and support in other modules. */
module Observations {
  import opened Texts
  import opened Reachability

  datatype Category = Domains | Ports | Events | Directives | ConfigSurface

  /** Something a unit is observed to use. */
  datatype Use = Use(category: Category, name: string)

  type Report = map<Category, seq<string>>

  const CATEGORIES: set<Category> := {Domains, Ports, Events, Directives, ConfigSurface}

  function Names(uses: set<Use>, c: Category): set<string> {
    set u | u in uses && u.category == c :: u.name
  }

  function Listed(uses: set<Use>, c: Category): seq<string> {
    Sorted(Names(uses, c))
  }

  /** The uses as they are reported: the names of each category, sorted. */
  function Reported(uses: set<Use>): Report {
    map c: Category | c in CATEGORIES :: Listed(uses, c)
  }

  function Merged(x: seq<string>, y: seq<string>): seq<string> {
    Sorted(Elements(x) + Elements(y))
  }

  /** Two reports as one, category by category. */
  function Joined(a: Report, b: Report): Report {
    map c: Category | c in a && c in b :: Merged(a[c], b[c])
  }

  lemma ListsMerge(a: set<Use>, b: set<Use>, c: Category)
    ensures Merged(Listed(a, c), Listed(b, c)) == Listed(a + b, c)
  {
    assert Elements(Listed(a, c)) + Elements(Listed(b, c)) == Names(a + b, c);
  }

  lemma ReportsJoin(a: set<Use>, b: set<Use>)
    ensures Joined(Reported(a), Reported(b)) == Reported(a + b)
  {
    forall c: Category ensures Merged(Listed(a, c), Listed(b, c)) == Listed(a + b, c) {
      ListsMerge(a, b, c);
    }
  }

  predicate Has(s: string, c: char) {
    c in s
  }

  function ModuleOf(reference: string): string {
    Head(reference, ':')
  }

  /** The top-level symbol of `module:Symbol.member`. */
  function RootOf(reference: string): string {
    Head(Tail(reference, ':'), '.')
  }

  function Qualified(module_: string, symbol: string): string {
    module_ + ":" + symbol
  }

  function DependenciesOf(g: Graph, reference: string): set<string> {
    if reference in g then g[reference] else {}
  }

  // ---- Helpers in the same module ----

  /** A dependency on a helper defined in the module itself. */
  predicate IsHelper(module_: string, nodes: set<string>, helpers: set<string>, dependency: string) {
    Has(dependency, ':') && ModuleOf(dependency) == module_ && RootOf(dependency) in nodes
      && RootOf(dependency) in helpers
  }

  function HelpersOf(g: Graph, module_: string, nodes: set<string>, helpers: set<string>, symbol: string): set<string> {
    set d | d in DependenciesOf(g, Qualified(module_, symbol)) && IsHelper(module_, nodes, helpers, d) :: RootOf(d)
  }

  /** The graph of the module's own helpers. */
  function HelperGraph(g: Graph, module_: string, nodes: set<string>, helpers: set<string>, symbols: set<string>)
    : Graph {
    map s | s in symbols + helpers :: HelpersOf(g, module_, nodes, helpers, s)
  }

  /** The loop's state: everything observed is reached, and what is no longer pending leads to nothing unobserved. */
  ghost predicate Observing(h: Graph, start: set<string>, observed: set<string>, pending: seq<string>) {
    && start <= observed <= Closure(h, start) && Elements(pending) <= observed
    && forall x :: x in observed && x !in pending && x in h ==> h[x] <= observed
  }

  method ExpandedSymbols(g: Graph, module_: string, nodes: set<string>, symbols: seq<string>, helpers: set<string>)
    returns (observed: set<string>)
    ensures observed == Closure(HelperGraph(g, module_, nodes, helpers, Elements(symbols)), Elements(symbols))
  {
    ghost var h := HelperGraph(g, module_, nodes, helpers, Elements(symbols));
    ghost var start := Elements(symbols);
    ghost var all := Closure(h, start);
    OnlyHelpers(g, module_, nodes, helpers, start);
    observed := set s | s in symbols;
    var pending := symbols;
    while pending != []
      invariant Observing(h, start, observed, pending)
      decreases |all - observed|, |pending|
    {
      var symbol := pending[|pending| - 1];
      PopElements(pending);
      var added := AddHelpers(g, module_, nodes, helpers, symbol, observed);
      ObserveMore(h, start, observed, pending, added);
      Shrinks(all, observed, Elements(added));
      assert added != [] ==> added[0] in Elements(added);
      observed, pending := observed + (set s | s in added), pending[..|pending| - 1] + added;
    }
    ClosureIsLeast(h, start, observed);
  }

  /** The helpers of one symbol that were not observed yet. */
  method AddHelpers(g: Graph, module_: string, nodes: set<string>, helpers: set<string>, symbol: string,
                    observed: set<string>)
    returns (added: seq<string>)
    ensures Elements(added) == HelpersOf(g, module_, nodes, helpers, symbol) - observed
  {
    var dependencies := Enumerate(DependenciesOf(g, Qualified(module_, symbol)));
    added := [];
    for i := 0 to |dependencies|
      invariant Elements(added) == HelpersAmong(module_, nodes, helpers, Elements(dependencies[..i])) - observed
    {
      OneMore(dependencies, i);
      var d := dependencies[i];
      if IsHelper(module_, nodes, helpers, d) && RootOf(d) !in observed && RootOf(d) !in added {
        assert Elements(added + [RootOf(d)]) == Elements(added) + {RootOf(d)};
        added := added + [RootOf(d)];
      }
    }
    assert dependencies[..|dependencies|] == dependencies;
  }

  function HelpersAmong(module_: string, nodes: set<string>, helpers: set<string>, dependencies: set<string>)
    : set<string> {
    set d | d in dependencies && IsHelper(module_, nodes, helpers, d) :: RootOf(d)
  }

  lemma ObserveMore(h: Graph, start: set<string>, observed: set<string>, pending: seq<string>, added: seq<string>)
    requires pending != [] && Observing(h, start, observed, pending)
    requires var x := pending[|pending| - 1]; x in h && Elements(added) == h[x] - observed
    ensures Elements(added) <= Closure(h, start)
    ensures Observing(h, start, observed + Elements(added), pending[..|pending| - 1] + added)
  {
    var x := pending[|pending| - 1];
    PopElements(pending);
    var rest := pending[..|pending| - 1] + added;
    assert forall y :: y in rest <==> y in pending[..|pending| - 1] || y in added;
    assert forall y :: y in added <==> y in Elements(added);
  }

  lemma Shrinks(all: set<string>, observed: set<string>, added: set<string>)
    requires added <= all && observed !! added
    ensures if added == {} then all - (observed + added) == all - observed
            else |all - (observed + added)| < |all - observed|
  {
    if added != {} { assert all - observed == (all - (observed + added)) + added; }
  }

  /** Nothing is observed but the symbols themselves and helpers. */
  lemma OnlyHelpers(g: Graph, module_: string, nodes: set<string>, helpers: set<string>, symbols: set<string>)
    ensures Closure(HelperGraph(g, module_, nodes, helpers, symbols), symbols) <= symbols + helpers * nodes
  {
    ClosureIsLeast(HelperGraph(g, module_, nodes, helpers, symbols), symbols, symbols + helpers * nodes);
  }

  // ---- Support in other modules ----

  /** A reference to support code of another module that can be resolved. */
  predicate IsSupport(g: Graph, module_: string, support: set<string>, reference: string) {
    && Has(reference, ':') && Qualified(ModuleOf(reference), RootOf(reference)) in support
    && ModuleOf(reference) != module_ && reference in g
  }

  /** Only support is expanded. */
  function SupportGraph(g: Graph, module_: string, support: set<string>): Graph {
    map r | r in g && IsSupport(g, module_, support, r) :: g[r]
  }

  /** What the expanded references use. */
  function UsedBy(uses: map<string, set<Use>>, references: set<string>): set<Use> {
    set r, u | r in references && r in uses && u in uses[r] :: u
  }

  function Expanded(g: Graph, module_: string, support: set<string>, seen: set<string>): set<string> {
    set r | r in seen && IsSupport(g, module_, support, r)
  }

  /** The dependencies of the observed symbols, one list. */
  method StartList(g: Graph, module_: string, observed: set<string>) returns (pending: seq<string>)
    ensures Elements(pending) == StartOf(g, module_, observed)
  {
    var symbols := Enumerate(observed);
    pending := [];
    for i := 0 to |symbols|
      invariant Elements(pending) == StartOf(g, module_, Elements(symbols[..i]))
    {
      OneMore(symbols, i);
      var dependencies := Enumerate(DependenciesOf(g, Qualified(module_, symbols[i])));
      assert Elements(pending + dependencies) == Elements(pending) + Elements(dependencies);
      pending := pending + dependencies;
    }
    assert symbols[..|symbols|] == symbols;
  }

  function StartOf(g: Graph, module_: string, observed: set<string>): set<string> {
    set s, d | s in observed && d in DependenciesOf(g, Qualified(module_, s)) :: d
  }

  /** The unit's own uses and those of the expanded references among some that were seen. */
  function Gathered(g: Graph, module_: string, support: set<string>, uses: map<string, set<Use>>, own: set<Use>,
                    seen: set<string>): set<Use>
  {
    own + UsedBy(uses, Expanded(g, module_, support, seen))
  }

  /** What is reported once some references were seen. */
  ghost predicate Gathering(g: Graph, module_: string, support: set<string>, uses: map<string, set<Use>>, own: set<Use>,
                            seen: set<string>, result: Report)
  {
    result == Reported(Gathered(g, module_, support, uses, own, seen))
  }

  lemma GatheringMore(g: Graph, module_: string, support: set<string>, uses: map<string, set<Use>>, own: set<Use>,
                      seen: set<string>, result: Report, r: string, used: set<Use>)
    requires Gathering(g, module_, support, uses, own, seen, result) && used == UsedAt(g, module_, support, uses, r)
    ensures Gathering(g, module_, support, uses, own, seen + {r}, Joined(result, Reported(used)))
  {
    UsedMore(g, module_, support, uses, own, seen, r);
    ReportsJoin(Gathered(g, module_, support, uses, own, seen), used);
  }

  /** The unit's own uses and those of all support it reaches without passing through another unit. */
  method ScopedObservations(g: Graph, module_: string, support: set<string>, observed: set<string>,
                            uses: map<string, set<Use>>, own: set<Use>)
    returns (result: Report)
    ensures result == Reported(Gathered(g, module_, support, uses, own,
                                        Closure(SupportGraph(g, module_, support), StartOf(g, module_, observed))))
  {
    ghost var start, s := StartOf(g, module_, observed), SupportGraph(g, module_, support);
    var pending := StartList(g, module_, observed);
    var seen: set<string> := {};
    result := Reported(own);
    assert Gathered(g, module_, support, uses, own, {}) == own;
    while pending != []
      invariant Walking(s, start, seen, pending)
      invariant Gathering(g, module_, support, uses, own, seen, result)
      decreases |Closure(s, start) - seen|, |pending|
    {
      var reference := pending[|pending| - 1];
      if reference in seen {
        WalkDrops(s, start, seen, pending);
        pending := pending[..|pending| - 1];
      } else {
        var more, used := Visit(g, module_, support, uses, seen, reference);
        ScopedStep(g, module_, support, start, seen, pending, more);
        GatheringMore(g, module_, support, uses, own, seen, result, reference, used);
        result := Joined(result, Reported(used));
        seen := seen + {reference};
        pending := pending[..|pending| - 1] + more;
      }
    }
    WalkOver(s, start, seen);
  }

  function UsedAt(g: Graph, module_: string, support: set<string>, uses: map<string, set<Use>>, reference: string)
    : set<Use>
  {
    if IsSupport(g, module_, support, reference) && reference in uses then uses[reference] else {}
  }

  /** One reference: expanded and observed when it is support, passed over otherwise. */
  method Visit(g: Graph, module_: string, support: set<string>, uses: map<string, set<Use>>, seen: set<string>,
               reference: string)
    returns (more: seq<string>, used: set<Use>)
    ensures Elements(more) == if IsSupport(g, module_, support, reference) then g[reference] - (seen + {reference})
            else {}
    ensures used == UsedAt(g, module_, support, uses, reference)
  {
    more, used := [], {};
    if !IsSupport(g, module_, support, reference) {
      return;
    }
    if reference in uses {
      used := uses[reference];
    }
    more := Enumerate(g[reference] - (seen + {reference}));
  }

  lemma ScopedStep(g: Graph, module_: string, support: set<string>, start: set<string>, seen: set<string>,
                   pending: seq<string>, more: seq<string>)
    requires pending != [] && Walking(SupportGraph(g, module_, support), start, seen, pending)
    requires var x := pending[|pending| - 1];
             x !in seen && Elements(more) == if IsSupport(g, module_, support, x) then g[x] - (seen + {x}) else {}
    ensures var x, s := pending[|pending| - 1], SupportGraph(g, module_, support);
            && Walking(s, start, seen + {x}, pending[..|pending| - 1] + more)
            && |Closure(s, start) - (seen + {x})| < |Closure(s, start) - seen|
  {
    var x, s := pending[|pending| - 1], SupportGraph(g, module_, support);
    WalkExpands(s, start, seen, pending, more);
  }

  lemma UsedMore(g: Graph, module_: string, support: set<string>, uses: map<string, set<Use>>, own: set<Use>,
                 seen: set<string>, r: string)
    ensures Gathered(g, module_, support, uses, own, seen + {r})
         == Gathered(g, module_, support, uses, own, seen) + UsedAt(g, module_, support, uses, r)
  {
    var now := Expanded(g, module_, support, seen);
    if IsSupport(g, module_, support, r) {
      assert Expanded(g, module_, support, seen + {r}) == now + {r};
    } else {
      assert Expanded(g, module_, support, seen + {r}) == now;
    }
  }

  /** Ownership stops the walk: whatever is reached beyond the start was reached through support alone. */
  lemma OwnershipStops(g: Graph, module_: string, support: set<string>, start: set<string>, p: seq<string>, i: nat)
    requires Path(SupportGraph(g, module_, support), p) && p[0] in start && i < |p| - 1
    ensures IsSupport(g, module_, support, p[i])
  {
    assert p[i] in SupportGraph(g, module_, support);
  }

  /** A use is gathered exactly when it is the unit's own or that of support reached through support alone. */
  lemma GatheredExactly(g: Graph, module_: string, support: set<string>, uses: map<string, set<Use>>,
                        own: set<Use>, start: set<string>, u: Use)
    ensures u in Gathered(g, module_, support, uses, own, Closure(SupportGraph(g, module_, support), start)) <==>
            u in own || exists r :: r in uses && u in uses[r] && IsSupport(g, module_, support, r)
                                    && Reaches(SupportGraph(g, module_, support), start, r)
  {
    forall r ensures r in Closure(SupportGraph(g, module_, support), start) <==>
      Reaches(SupportGraph(g, module_, support), start, r) {
      ClosureIsReach(SupportGraph(g, module_, support), start, r);
    }
  }

  // ---- What a reference says ----

  /** A reference as it is written: a module, a top-level symbol, and what follows it. */
  predicate WrittenAs(reference: string, module_: string, root: string, rest: string) {
    && reference == module_ + ":" + root + rest && ':' !in module_ && '.' !in root
    && (rest == "" || rest[0] == '.')
  }

  lemma {:induction false} HeadOf(a: string, c: char, b: string)
    requires c !in a
    ensures Head(a + [c] + b, c) == a && Tail(a + [c] + b, c) == b && Head(a, c) == a
    decreases |a|
  {
    var s := a + [c] + b;
    if a == [] {
      assert s[0] == c && s[1..] == b;
    } else {
      assert s[0] == a[0] && s[1..] == a[1..] + [c] + b;
      HeadOf(a[1..], c, b);
    }
  }

  lemma Parts(reference: string, module_: string, root: string, rest: string)
    requires WrittenAs(reference, module_, root, rest)
    ensures ModuleOf(reference) == module_ && RootOf(reference) == root && ':' in reference
  {
    assert reference == module_ + [':'] + (root + rest);
    HeadOf(module_, ':', root + rest);
    if rest == "" {
      assert root + rest == root;
      HeadOf(root, '.', "");
    } else {
      assert root + rest == root + ['.'] + rest[1..];
      HeadOf(root, '.', rest[1..]);
    }
  }

  /** Support is another module's: a resolvable reference whose top-level symbol is claimed as support. */
  lemma SupportExactly(g: Graph, own: string, support: set<string>, reference: string, module_: string, root: string,
                       rest: string)
    requires WrittenAs(reference, module_, root, rest)
    ensures IsSupport(g, own, support, reference) <==>
            module_ != own && reference in g && (module_ + ":" + root) in support
  {
    Parts(reference, module_, root, rest);
  }

  /** A helper is the module's own, one of its definitions. */
  lemma HelperExactly(own: string, nodes: set<string>, helpers: set<string>, dependency: string, module_: string,
                      root: string, rest: string)
    requires WrittenAs(dependency, module_, root, rest)
    ensures IsHelper(own, nodes, helpers, dependency) <==> module_ == own && root in nodes && root in helpers
  {
    Parts(dependency, module_, root, rest);
  }

  /** What is not written as a reference is neither. */
  lemma NoReference(g: Graph, own: string, support: set<string>, nodes: set<string>, helpers: set<string>, s: string)
    requires ':' !in s
    ensures !IsSupport(g, own, support, s) && !IsHelper(own, nodes, helpers, s)
  {
  }

  /** A report has a list for every category, of exactly the names used in it. */
  lemma ReportedExactly(uses: set<Use>, c: Category, name: string)
    ensures c in Reported(uses) && (name in Reported(uses)[c] <==> Use(c, name) in uses)
    ensures StrictlySorted(Reported(uses)[c])
  {
    if name in Names(uses, c) {
      var u :| u in uses && u.category == c && u.name == name;
      assert u == Use(c, name);
    }
    if Use(c, name) in uses { assert name in Names(uses, c); }
  }
}
