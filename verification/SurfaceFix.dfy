/** Raising the declared ranges that the audit reported, and what a second audit then says. */
module SurfaceFix {
  import opened Texts
  import opened SurfaceVersions

  function FixEntry(fields: map<string, string>, f: Finding): map<string, string> {
    if f.package in fields then fields[f.package := f.expected] else fields
  }

  function FixOne(m: Manifest, f: Finding): Manifest {
    m.(dependencies := FixEntry(m.dependencies, f), devDependencies := FixEntry(m.devDependencies, f))
  }

  function FixAll(m: Manifest, items: seq<Finding>): Manifest {
    if items == [] then m else FixOne(FixAll(m, items[..|items| - 1]), items[|items| - 1])
  }

  /** The range findings of one app. */
  function ItemsOf(findings: seq<Finding>, app: string): seq<Finding> {
    if findings == [] then []
    else
      var f := findings[|findings| - 1];
      ItemsOf(findings[..|findings| - 1], app) + if f.app == app && f.dimension == Range then [f] else []
  }

  function Fixed(surfaces: Surfaces, findings: seq<Finding>): Surfaces {
    map app | app in surfaces :: FixAll(surfaces[app], ItemsOf(findings, app))
  }

  lemma {:induction false} InItemsOf(findings: seq<Finding>, app: string, f: Finding)
    ensures f in ItemsOf(findings, app) <==> f in findings && f.app == app && f.dimension == Range
    decreases |findings|
  {
    if findings != [] {
      InItemsOf(findings[..|findings| - 1], app, f);
      assert findings == findings[..|findings| - 1] + [findings[|findings| - 1]];
    }
  }

  // ---- The rewriting of the manifests ----

  class Workspace {
    var surfaces: Surfaces

    constructor (surfaces: Surfaces)
      ensures this.surfaces == surfaces
    {
      this.surfaces := surfaces;
    }

    method ApplyFix(findings: seq<Finding>)
      requires forall f :: f in findings && f.dimension == Range ==> f.app in surfaces
      modifies this
      ensures surfaces == Fixed(old(surfaces), findings)
    {
      var byApp := GroupByApp(findings);
      var apps := Sorted(byApp.Keys);
      assert FixedIn(surfaces, findings, Elements([])) == surfaces;
      for i := 0 to |apps|
        invariant surfaces == FixedIn(old(surfaces), findings, Elements(apps[..i]))
      {
        var app := apps[i];
        FixedStep(old(surfaces), findings, byApp, apps, i);
        var data := Rewrite(surfaces[app], byApp[app]);
        surfaces := surfaces[app := data];
      }
      FixedEverywhere(old(surfaces), findings, byApp, apps);
    }
  }

  lemma FixedStep(surfaces: Surfaces, findings: seq<Finding>, byApp: map<string, seq<Finding>>, apps: seq<string>,
                  i: nat)
    requires Grouped(findings, byApp) && i < |apps| && StrictlySorted(apps) && apps[i] in byApp
    requires forall f :: f in findings && f.dimension == Range ==> f.app in surfaces
    ensures apps[i] in surfaces
    ensures FixedIn(surfaces, findings, Elements(apps[..i]))[apps[i]] == surfaces[apps[i]]
    ensures FixedIn(surfaces, findings, Elements(apps[..i]))[apps[i] := FixAll(surfaces[apps[i]], byApp[apps[i]])]
         == FixedIn(surfaces, findings, Elements(apps[..i + 1]))
  {
    var app := apps[i];
    AppKnown(surfaces, findings, byApp, app);
    OneMore(apps, i);
  }

  lemma AppKnown(surfaces: Surfaces, findings: seq<Finding>, byApp: map<string, seq<Finding>>, app: string)
    requires Grouped(findings, byApp) && app in byApp
    requires forall f :: f in findings && f.dimension == Range ==> f.app in surfaces
    ensures app in surfaces && byApp[app] == ItemsOf(findings, app)
  {
    InItemsOf(findings, app, byApp[app][0]);
  }

  /** One manifest, item by item and field by field. */
  method Rewrite(manifest: Manifest, items: seq<Finding>) returns (data: Manifest)
    ensures data == FixAll(manifest, items)
  {
    data := manifest;
    for k := 0 to |items|
      invariant data == FixAll(manifest, items[..k])
    {
      var item := items[k];
      assert items[..k + 1][..k] == items[..k];
      if item.package in data.dependencies {
        data := data.(dependencies := data.dependencies[item.package := item.expected]);
      }
      if item.package in data.devDependencies {
        data := data.(devDependencies := data.devDependencies[item.package := item.expected]);
      }
    }
    assert items[..|items|] == items;
  }

  method GroupByApp(findings: seq<Finding>) returns (byApp: map<string, seq<Finding>>)
    ensures Grouped(findings, byApp)
  {
    byApp := map[];
    for i := 0 to |findings|
      invariant Grouped(findings[..i], byApp)
    {
      var f := findings[i];
      GroupedOneMore(findings, i, byApp);
      if f.dimension == Range {
        byApp := byApp[f.app := (if f.app in byApp then byApp[f.app] else []) + [f]];
      }
    }
    assert findings[..|findings|] == findings;
  }

  ghost predicate Grouped(findings: seq<Finding>, byApp: map<string, seq<Finding>>) {
    && (forall app :: app in byApp ==> byApp[app] == ItemsOf(findings, app))
    && (forall app :: ItemsOf(findings, app) != [] <==> app in byApp)
  }

  lemma GroupedOneMore(findings: seq<Finding>, i: nat, byApp: map<string, seq<Finding>>)
    requires i < |findings| && Grouped(findings[..i], byApp)
    ensures var f := findings[i];
            Grouped(findings[..i + 1], if f.dimension == Range
                                       then byApp[f.app := (if f.app in byApp then byApp[f.app] else []) + [f]]
                                         else byApp)
  {
    assert findings[..i + 1][..i] == findings[..i];
    assert forall app :: app !in byApp ==> ItemsOf(findings[..i], app) == [];
  }

  /** The fix applied to some of the apps. */
  function FixedIn(surfaces: Surfaces, findings: seq<Finding>, apps: set<string>): Surfaces {
    map app | app in surfaces :: if app in apps then FixAll(surfaces[app], ItemsOf(findings, app)) else surfaces[app]
  }

  lemma FixedEverywhere(surfaces: Surfaces, findings: seq<Finding>, byApp: map<string, seq<Finding>>, apps: seq<string>)
    requires Grouped(findings, byApp) && apps == Sorted(byApp.Keys)
    ensures FixedIn(surfaces, findings, Elements(apps[..|apps|])) == Fixed(surfaces, findings)
  {
    assert apps[..|apps|] == apps;
    forall app | app in surfaces && app !in byApp
      ensures FixAll(surfaces[app], ItemsOf(findings, app)) == surfaces[app] {
      assert ItemsOf(findings, app) == [];
    }
  }

  // ---- What the fix does to each entry ----

  /** The manifests differ only in the values of declared ranges. */
  predicate SameEntries(a: Manifest, b: Manifest) {
    a.dependencies.Keys == b.dependencies.Keys && a.devDependencies.Keys == b.devDependencies.Keys
      && a.locked == b.locked
  }

  lemma {:induction false} FixAllKeepsEntries(m: Manifest, items: seq<Finding>)
    ensures SameEntries(m, FixAll(m, items))
    decreases |items|
  {
    if items != [] { FixAllKeepsEntries(m, items[..|items| - 1]); }
  }

  /** A package that no item names keeps its range. */
  lemma {:induction false} Untouched(m: Manifest, items: seq<Finding>, p: string)
    requires forall f :: f in items ==> f.package != p
    ensures SameEntries(m, FixAll(m, items))
    ensures p in m.dependencies ==> FixAll(m, items).dependencies[p] == m.dependencies[p]
    ensures p in m.devDependencies ==> FixAll(m, items).devDependencies[p] == m.devDependencies[p]
    decreases |items|
  {
    if items != [] {
      assert items[|items| - 1] in items;
      Untouched(m, items[..|items| - 1], p);
    }
  }

  /** A named package gets the expected range wherever the manifest has it. */
  lemma {:induction false} Raised(m: Manifest, items: seq<Finding>, p: string, e: string)
    requires exists f :: f in items && f.package == p
    requires forall f :: f in items && f.package == p ==> f.expected == e
    ensures SameEntries(m, FixAll(m, items))
    ensures p in m.dependencies ==> FixAll(m, items).dependencies[p] == e
    ensures p in m.devDependencies ==> FixAll(m, items).devDependencies[p] == e
    decreases |items|
  {
    var last := items[|items| - 1];
    assert last in items;
    FixAllKeepsEntries(m, items[..|items| - 1]);
    if last.package != p {
      var f :| f in items && f.package == p;
      assert items == items[..|items| - 1] + [last];
      assert f in items[..|items| - 1];
      Raised(m, items[..|items| - 1], p, e);
    }
  }

  // ---- The second audit ----

  ghost predicate IsAudit(surfaces: Surfaces, exceptions: Exceptions, findings: seq<Finding>) {
    forall f :: f in findings <==> Reported(surfaces, exceptions, f)
  }

  /** A range finding names the app and the package. */
  ghost predicate Concerned(surfaces: Surfaces, exceptions: Exceptions, app: string, p: string) {
    exists f :: Reported(surfaces, exceptions, f) && f.app == app && f.package == p && f.dimension == Range
  }

  /** The effective range of a package in an app after the fix. */
  lemma EffectiveAfter(surfaces: Surfaces, exceptions: Exceptions, findings: seq<Finding>, app: string, p: string)
    requires IsAudit(surfaces, exceptions, findings) && app in surfaces
    ensures SameEntries(surfaces[app], Fixed(surfaces, findings)[app])
    ensures forall f :: Reported(surfaces, exceptions, f) && f.app == app && f.package == p && f.dimension == Range ==>
              p in Declared(surfaces[app]) && Declared(Fixed(surfaces, findings)[app])[p] == f.expected
              && (p in surfaces[app].dependencies ==> Fixed(surfaces, findings)[app].dependencies[p] == f.expected)
              && (p in surfaces[app].devDependencies ==>
                  Fixed(surfaces, findings)[app].devDependencies[p] == f.expected)
    ensures !Concerned(surfaces, exceptions, app, p) && p in Declared(surfaces[app]) ==>
              Declared(Fixed(surfaces, findings)[app])[p] == Declared(surfaces[app])[p]
  {
    var m, items := surfaces[app], ItemsOf(findings, app);
    FixAllKeepsEntries(m, items);
    forall f ensures f in items <==> Reported(surfaces, exceptions, f) && f.app == app && f.dimension == Range {
      InItemsOf(findings, app, f);
    }
    forall f | Reported(surfaces, exceptions, f) && f.app == app && f.package == p && f.dimension == Range
      ensures p in Declared(m) && Declared(FixAll(m, items))[p] == f.expected
              && (p in m.dependencies ==> FixAll(m, items).dependencies[p] == f.expected)
              && (p in m.devDependencies ==> FixAll(m, items).devDependencies[p] == f.expected)
    {
      OneExpected(surfaces, exceptions, items, f);
      Raised(m, items, p, f.expected);
      assert app in Versions(surfaces, p, Range);
    }
    if !Concerned(surfaces, exceptions, app, p) {
      Untouched(m, items, p);
    }
  }

  lemma OneExpected(surfaces: Surfaces, exceptions: Exceptions, items: seq<Finding>, f: Finding)
    requires forall g :: g in items ==> Reported(surfaces, exceptions, g) && g.dimension == Range
    requires Reported(surfaces, exceptions, f) && f.dimension == Range
    ensures forall g :: g in items && g.package == f.package ==> g.expected == f.expected
  {
    forall g | g in items && g.package == f.package ensures g.expected == f.expected {
      ReferenceUnique(Regular(Versions(surfaces, f.package, Range), f.package, exceptions), f.expected, g.expected);
    }
  }

  lemma SameDeclared(m: Manifest, items: seq<Finding>)
    ensures Declared(FixAll(m, items)).Keys == Declared(m).Keys && Locked(FixAll(m, items)) == Locked(m)
  {
    FixAllKeepsEntries(m, items);
  }

  /** The same apps have the package, before and after. */
  lemma SameApps(surfaces: Surfaces, findings: seq<Finding>, p: string, dimension: Dimension)
    ensures Versions(Fixed(surfaces, findings), p, dimension).Keys == Versions(surfaces, p, dimension).Keys
    ensures dimension == Lock ==> Versions(Fixed(surfaces, findings), p, dimension) == Versions(surfaces, p, dimension)
  {
    forall app | app in surfaces
      ensures Along(Fixed(surfaces, findings)[app], dimension).Keys == Along(surfaces[app], dimension).Keys
      ensures dimension == Lock ==> Along(Fixed(surfaces, findings)[app], dimension) == Along(surfaces[app], dimension)
    {
      SameDeclared(surfaces[app], ItemsOf(findings, app));
    }
  }

  lemma SameSize(surfaces: Surfaces, findings: seq<Finding>, p: string, dimension: Dimension)
    ensures |Versions(Fixed(surfaces, findings), p, dimension)| == |Versions(surfaces, p, dimension)|
  {
    SameApps(surfaces, findings, p, dimension);
    var a, b := Versions(surfaces, p, dimension), Versions(Fixed(surfaces, findings), p, dimension);
    assert |a| == |a.Keys| && |b| == |b.Keys|;
  }

  /** What an app declares after the fix: the expected range when it was reported, its own otherwise. */
  lemma VersionAfter(surfaces: Surfaces, exceptions: Exceptions, findings: seq<Finding>, app: string, p: string,
                     e: string)
    requires IsAudit(surfaces, exceptions, findings) && Expects(surfaces, exceptions, p, Range, e)
    requires app in Versions(surfaces, p, Range)
    ensures app in Versions(Fixed(surfaces, findings), p, Range)
    ensures Versions(Fixed(surfaces, findings), p, Range)[app] ==
              if Diverges(FindingFor(surfaces, exceptions, p, Range, e, app)) then e
                else Versions(surfaces, p, Range)[app]
  {
    SameApps(surfaces, findings, p, Range);
    EffectiveAfter(surfaces, exceptions, findings, app, p);
    var f := FindingFor(surfaces, exceptions, p, Range, e, app);
    if Diverges(f) {
      assert Reported(surfaces, exceptions, f);
    } else if Concerned(surfaces, exceptions, app, p) {
      var g :| Reported(surfaces, exceptions, g) && g.app == app && g.package == p && g.dimension == Range;
      ReferenceUnique(Regular(Versions(surfaces, p, Range), p, exceptions), e, g.expected);
      assert false;
    }
  }

  /** A package about which nothing was expected is left alone. */
  lemma QuietPackage(surfaces: Surfaces, exceptions: Exceptions, findings: seq<Finding>, p: string)
    requires IsAudit(surfaces, exceptions, findings) && forall e :: !Expects(surfaces, exceptions, p, Range, e)
    ensures Versions(Fixed(surfaces, findings), p, Range) == Versions(surfaces, p, Range)
  {
    SameApps(surfaces, findings, p, Range);
    forall app | app in Versions(surfaces, p, Range)
      ensures Versions(Fixed(surfaces, findings), p, Range)[app] == Versions(surfaces, p, Range)[app]
    {
      EffectiveAfter(surfaces, exceptions, findings, app, p);
    }
  }

  /** After the fix every app without an exception declares the expected range, and that is still what is expected. */
  lemma RegularAfter(surfaces: Surfaces, exceptions: Exceptions, findings: seq<Finding>, p: string, e: string)
    requires IsAudit(surfaces, exceptions, findings) && Expects(surfaces, exceptions, p, Range, e)
    ensures var regular := Regular(Versions(Fixed(surfaces, findings), p, Range), p, exceptions);
            regular.Keys == Regular(Versions(surfaces, p, Range), p, exceptions).Keys
            && (forall app :: app in regular ==> regular[app] == e) && IsReference(regular, e)
  {
    var regular := Regular(Versions(Fixed(surfaces, findings), p, Range), p, exceptions);
    SameApps(surfaces, findings, p, Range);
    forall app | app in regular ensures regular[app] == e {
      VersionAfter(surfaces, exceptions, findings, app, p, e);
    }
    AllTheSame(regular, Regular(Versions(surfaces, p, Range), p, exceptions), e);
  }

  /** When all apps agree, what they agree on is the reference. */
  lemma AllTheSame(regular: map<string, string>, before: map<string, string>, e: string)
    requires regular.Keys == before.Keys && IsReference(before, e) && forall app :: app in regular ==> regular[app] == e
    ensures IsReference(regular, e)
  {
    KeyLeTotal(SortKey(e), SortKey(e));
    var n :| IsFirstHighest(before, e, n);
    var least := Least(regular.Keys);
    forall m | m in regular && StrLt(m, least) ensures false { StrLeAntisymmetric(m, least); }
    assert IsFirstHighest(regular, e, least);
  }

  /** No finding about a declared range is left, and those about lock files are what they were. */
  lemma SecondAuditIsClean(surfaces: Surfaces, exceptions: Exceptions, findings: seq<Finding>)
    requires IsAudit(surfaces, exceptions, findings)
    ensures forall f :: Reported(Fixed(surfaces, findings), exceptions, f) ==> f.dimension == Lock
    ensures forall f: Finding :: f.dimension == Lock ==>
              (Reported(Fixed(surfaces, findings), exceptions, f) <==> Reported(surfaces, exceptions, f))
  {
    forall f: Finding | f.dimension == Range ensures !Reported(Fixed(surfaces, findings), exceptions, f) {
      NoRangeLeft(surfaces, exceptions, findings, f);
    }
    forall f: Finding | f.dimension == Lock
      ensures Reported(Fixed(surfaces, findings), exceptions, f) <==> Reported(surfaces, exceptions, f)
    {
      SameLocks(surfaces, exceptions, findings, f);
    }
  }

  lemma SameLocks(surfaces: Surfaces, exceptions: Exceptions, findings: seq<Finding>, f: Finding)
    requires f.dimension == Lock
    ensures Reported(Fixed(surfaces, findings), exceptions, f) <==> Reported(surfaces, exceptions, f)
  {
    SameApps(surfaces, findings, f.package, Lock);
    SameSize(surfaces, findings, f.package, Range);
  }

  lemma NoRangeLeft(surfaces: Surfaces, exceptions: Exceptions, findings: seq<Finding>, f: Finding)
    requires IsAudit(surfaces, exceptions, findings) && f.dimension == Range
    ensures !Reported(Fixed(surfaces, findings), exceptions, f)
  {
    var after, p := Fixed(surfaces, findings), f.package;
    if Reported(after, exceptions, f) {
      SameApps(surfaces, findings, p, Range);
      SameSize(surfaces, findings, p, Range);
      if e :| Expects(surfaces, exceptions, p, Range, e) {
        RegularAfter(surfaces, exceptions, findings, p, e);
        ReferenceUnique(Regular(Versions(after, p, Range), p, exceptions), e, f.expected);
        VersionAfter(surfaces, exceptions, findings, f.app, p, e);
        assert false;
      } else {
        QuietPackage(surfaces, exceptions, findings, p);
        assert Expects(surfaces, exceptions, p, Range, f.expected);
      }
    }
  }

  /** The range of a package that is in force in an app is never lowered. */
  lemma NeverLowered(surfaces: Surfaces, exceptions: Exceptions, findings: seq<Finding>, app: string, p: string)
    requires IsAudit(surfaces, exceptions, findings) && app in surfaces && p in Declared(surfaces[app])
    ensures p in Declared(Fixed(surfaces, findings)[app])
    ensures AtMost(Declared(surfaces[app])[p], Declared(Fixed(surfaces, findings)[app])[p])
  {
    var found := Declared(surfaces[app])[p];
    assert app in Versions(surfaces, p, Range);
    EffectiveAfter(surfaces, exceptions, findings, app, p);
    SameApps(surfaces, findings, p, Range);
    assert app in Versions(Fixed(surfaces, findings), p, Range);
    KeyLeTotal(SortKey(found), SortKey(found));
    if Concerned(surfaces, exceptions, app, p) {
      var f :| Reported(surfaces, exceptions, f) && f.app == app && f.package == p && f.dimension == Range;
      FoundAtMostExpected(surfaces, exceptions, f);
    }
  }

  /** A reported range is at most the expected one, whether the app is excepted or not. */
  lemma FoundAtMostExpected(surfaces: Surfaces, exceptions: Exceptions, f: Finding)
    requires Reported(surfaces, exceptions, f)
    ensures AtMost(f.found, f.expected)
  {
    KeyLeTotal(SortKey(f.found), SortKey(f.expected));
    if (f.app, f.package) !in exceptions {
      assert f.app in Regular(Versions(surfaces, f.package, f.dimension), f.package, exceptions);
    }
  }

  /** An app with an exception that does not lag behind keeps both its entries. */
  lemma ExceptionLeftAlone(surfaces: Surfaces, exceptions: Exceptions, findings: seq<Finding>, app: string, p: string)
    requires IsAudit(surfaces, exceptions, findings) && app in surfaces && p in Declared(surfaces[app])
    requires (app, p) in exceptions
    requires forall e :: Expects(surfaces, exceptions, p, Range, e) ==> AtMost(e, Declared(surfaces[app])[p])
    ensures var m := Fixed(surfaces, findings)[app];
            && SameEntries(surfaces[app], m)
            && (p in m.dependencies ==> m.dependencies[p] == surfaces[app].dependencies[p])
            && (p in m.devDependencies ==> m.devDependencies[p] == surfaces[app].devDependencies[p])
  {
    forall f | f in ItemsOf(findings, app) ensures f.package != p {
      InItemsOf(findings, app, f);
    }
    Untouched(surfaces[app], ItemsOf(findings, app), p);
  }

  /**
   An entry of `dependencies` can be lowered: exactly when the app is reported for the package and the
   entry is above the expected range. By `NeverLowered` it is then overridden by `devDependencies`.
   */
  lemma LoweredExactlyWhen(surfaces: Surfaces, exceptions: Exceptions, findings: seq<Finding>, app: string, p: string)
    requires IsAudit(surfaces, exceptions, findings) && app in surfaces && p in surfaces[app].dependencies
    ensures p in Fixed(surfaces, findings)[app].dependencies
    ensures !AtMost(surfaces[app].dependencies[p], Fixed(surfaces, findings)[app].dependencies[p]) <==>
            Overtaken(surfaces, exceptions, app, p)
    ensures Overtaken(surfaces, exceptions, app, p) ==> p in surfaces[app].devDependencies
  {
    var m, was := Fixed(surfaces, findings)[app], surfaces[app].dependencies[p];
    EffectiveAfter(surfaces, exceptions, findings, app, p);
    KeyLeTotal(SortKey(was), SortKey(was));
    if Concerned(surfaces, exceptions, app, p) {
      var f :| Reported(surfaces, exceptions, f) && f.app == app && f.package == p && f.dimension == Range;
      assert m.dependencies[p] == f.expected;
      FoundAtMostExpected(surfaces, exceptions, f);
    } else {
      forall f | f in ItemsOf(findings, app) ensures f.package != p { InItemsOf(findings, app, f); }
      Untouched(surfaces[app], ItemsOf(findings, app), p);
    }
  }

  /** The app is reported for the package, and its `dependencies` entry is above the expected range. */
  ghost predicate Overtaken(surfaces: Surfaces, exceptions: Exceptions, app: string, p: string) {
    exists f :: Reported(surfaces, exceptions, f) && f.app == app && f.package == p && f.dimension == Range
      && app in surfaces && p in surfaces[app].dependencies && !AtMost(surfaces[app].dependencies[p], f.expected)
  }

  /** Two apps; the first has the package in both fields, the overridden entry ahead of everything. */
  function Overlapping(a: string, b: string, p: string, low: string, mid: string, high: string): Surfaces
    requires a != b
  {
    map[a := Manifest(map[p := high], map[p := low], map[]), b := Manifest(map[p := mid], map[], map[])]
  }

  predicate HasEntry(surfaces: Surfaces, app: string, p: string, v: string) {
    app in surfaces && p in surfaces[app].dependencies && surfaces[app].dependencies[p] == v
  }

  lemma OverlappingVersions(a: string, b: string, p: string, low: string, mid: string, high: string)
    requires a != b
    ensures Versions(Overlapping(a, b, p, low, mid, high), p, Range) == map[a := low, b := mid]
    ensures Regular(map[a := low, b := mid], p, {}) == map[a := low, b := mid]
  {
  }

  lemma OverlappingExpects(a: string, b: string, p: string, low: string, mid: string, high: string)
    requires a != b && !AtMost(mid, low)
    ensures Expects(Overlapping(a, b, p, low, mid, high), {}, p, Range, mid)
  {
    OverlappingVersions(a, b, p, low, mid, high);
    MidIsReference(map[a := low, b := mid], a, b, low, mid);
  }

  lemma OverlappingReports(a: string, b: string, p: string, low: string, mid: string, high: string)
    requires a != b && !AtMost(mid, low)
    ensures Concerned(Overlapping(a, b, p, low, mid, high), {}, a, p)
    ensures var surfaces := Overlapping(a, b, p, low, mid, high);
            forall f ::
              Reported(surfaces, {}, f) && f.app == a && f.package == p && f.dimension == Range ==> f.expected == mid
  {
    var surfaces := Overlapping(a, b, p, low, mid, high);
    OverlappingVersions(a, b, p, low, mid, high);
    OverlappingExpects(a, b, p, low, mid, high);
    var f := FindingFor(surfaces, {}, p, Range, mid, a);
    assert f.found == low && Diverges(f) by { KeyLeTotal(SortKey(mid), SortKey(mid)); }
    assert Reported(surfaces, {}, f);
    forall g | Reported(surfaces, {}, g) && g.app == a && g.package == p && g.dimension == Range
      ensures g.expected == mid {
      ReferenceUnique(Regular(Versions(surfaces, p, Range), p, {}), g.expected, mid);
    }
  }

  /** The fix takes the overridden entry down to the version of the other app. */
  lemma OverlapIsLowered(a: string, b: string, p: string, low: string, mid: string, high: string,
                         findings: seq<Finding>)
    requires a != b && !AtMost(mid, low) && !AtMost(high, mid)
    requires IsAudit(Overlapping(a, b, p, low, mid, high), {}, findings)
    ensures HasEntry(Overlapping(a, b, p, low, mid, high), a, p, high)
    ensures HasEntry(Fixed(Overlapping(a, b, p, low, mid, high), findings), a, p, mid)
  {
    var surfaces := Overlapping(a, b, p, low, mid, high);
    OverlappingReports(a, b, p, low, mid, high);
    EffectiveAfter(surfaces, {}, findings, a, p);
  }

  lemma MidIsReference(versions: map<string, string>, a: string, b: string, low: string, mid: string)
    requires a != b && versions == map[a := low, b := mid] && !AtMost(mid, low)
    ensures IsReference(versions, mid) && |versions| == 2
  {
    KeyLeTotal(SortKey(mid), SortKey(mid));
    KeyLeTotal(SortKey(low), SortKey(mid));
    assert IsFirstHighest(versions, mid, b);
    assert versions.Keys == {a, b};
    assert |versions.Keys| == 2;
  }

  /** A concrete case: the `dependencies` entry goes from 9 to 2. */
  lemma LoweredExample(findings: seq<Finding>)
    requires IsAudit(Overlapping("a", "b", "p", "1", "2", "9"), {}, findings)
    ensures HasEntry(Overlapping("a", "b", "p", "1", "2", "9"), "a", "p", "9")
    ensures HasEntry(Fixed(Overlapping("a", "b", "p", "1", "2", "9"), findings), "a", "p", "2")
  {
    OverlapIsLowered("a", "b", "p", "1", "2", "9", findings);
  }
}
