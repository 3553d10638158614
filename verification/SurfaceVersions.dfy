/** One version per shared package: what diverges between the apps, and raising it to the highest. */
module SurfaceVersions {
  import opened Texts

  // ---- Comparing versions ----

  predicate IsDigit(c: char) {
    '0' <= c <= '9'
  }

  /** The runs of digits, as numbers; `run` is the one being read. */
  function Numbers(s: string, run: Option<nat>): seq<nat>
    decreases |s|
  {
    if s == [] then (if run.Some? then [run.value] else [])
    else if IsDigit(s[0]) then
      Numbers(s[1..], Some((if run.Some? then 10 * run.value else 0) + (s[0] as int - '0' as int)))
    else (if run.Some? then [run.value] else []) + Numbers(s[1..], None)
  }

  function SortKey(specifier: string): (key: seq<nat>)
    ensures key != [] && |key| <= 4
  {
    var numbers := Numbers(specifier, None);
    if numbers == [] then [0] else if |numbers| <= 4 then numbers else numbers[..4]
  }

  /** Lists of numbers compared element by element, the shorter one first when it is a prefix. */
  predicate KeyLe(a: seq<nat>, b: seq<nat>) {
    a == [] || (b != [] && (a[0] < b[0] || (a[0] == b[0] && KeyLe(a[1..], b[1..]))))
  }

  lemma {:induction false} KeyLeTotal(a: seq<nat>, b: seq<nat>)
    ensures KeyLe(a, b) || KeyLe(b, a)
    decreases |a|
  {
    if a != [] && b != [] && a[0] == b[0] { KeyLeTotal(a[1..], b[1..]); }
  }

  lemma {:induction false} KeyLeTransitive(a: seq<nat>, b: seq<nat>, c: seq<nat>)
    requires KeyLe(a, b) && KeyLe(b, c)
    ensures KeyLe(a, c)
    decreases |a|
  {
    if a != [] && a[0] == b[0] && b[0] == c[0] { KeyLeTransitive(a[1..], b[1..], c[1..]); }
  }

  predicate AtMost(v: string, w: string) {
    KeyLe(SortKey(v), SortKey(w))
  }

  /** The highest version; of several equally high ones, that of the first app. */
  ghost predicate IsReference(versions: map<string, string>, v: string) {
    && (exists n :: IsFirstHighest(versions, v, n))
    && forall m :: m in versions ==> AtMost(versions[m], v)
  }

  ghost predicate IsFirstHighest(versions: map<string, string>, v: string, n: string) {
    n in versions && versions[n] == v && forall m :: m in versions && StrLt(m, n) ==> !AtMost(v, versions[m])
  }

  lemma ReferenceUnique(versions: map<string, string>, v: string, w: string)
    requires IsReference(versions, v) && IsReference(versions, w)
    ensures v == w
  {
    var n :| IsFirstHighest(versions, v, n);
    var m :| IsFirstHighest(versions, w, m);
    StrLeTotal(n, m);
    assert AtMost(versions[n], w) && AtMost(versions[m], v);
  }

  method ReferenceVersion(versions: map<string, string>) returns (v: string)
    requires versions != map[]
    ensures IsReference(versions, v)
  {
    var names := Sorted(versions.Keys);
    assert names != [] by { var n :| n in versions; assert n in names; }
    v := versions[names[0]];
    ghost var at := 0;
    LeadingAtFirst(versions, names);
    for i := 1 to |names|
      invariant Leading(versions, names, i, v, at)
    {
      var w := versions[names[i]];
      LeadingStep(versions, names, i, v, at);
      if !AtMost(w, v) {
        v, at := w, i;
      }
    }
    FirstHighest(versions, names, v, at);
  }

  /** The highest of the first `i` names, found first at `at`. */
  ghost predicate Leading(versions: map<string, string>, names: seq<string>, i: nat, v: string, at: nat) {
    && i <= |names| && (forall k :: 0 <= k < |names| ==> names[k] in versions)
    && at < i && versions[names[at]] == v
    && (forall k :: 0 <= k < i ==> AtMost(versions[names[k]], v))
    && (forall k :: 0 <= k < at ==> !AtMost(v, versions[names[k]]))
  }

  lemma LeadingAtFirst(versions: map<string, string>, names: seq<string>)
    requires names != [] && forall k :: 0 <= k < |names| ==> names[k] in versions
    ensures Leading(versions, names, 1, versions[names[0]], 0)
  {
    KeyLeTotal(SortKey(versions[names[0]]), SortKey(versions[names[0]]));
  }

  lemma LeadingStep(versions: map<string, string>, names: seq<string>, i: nat, v: string, at: nat)
    requires i < |names| && Leading(versions, names, i, v, at)
    ensures var w := versions[names[i]];
            if AtMost(w, v) then Leading(versions, names, i + 1, v, at) else Leading(versions, names, i + 1, w, i)
  {
    var w := versions[names[i]];
    if !AtMost(w, v) {
      KeyLeTotal(SortKey(w), SortKey(w));
      forall k | 0 <= k < i ensures AtMost(versions[names[k]], w) && !AtMost(w, versions[names[k]]) {
        Higher(versions[names[k]], v, w);
      }
    }
  }

  lemma Higher(u: string, v: string, w: string)
    requires AtMost(u, v) && !AtMost(w, v)
    ensures AtMost(u, w) && !AtMost(w, u)
  {
    KeyLeTotal(SortKey(v), SortKey(w));
    KeyLeTransitive(SortKey(u), SortKey(v), SortKey(w));
    if AtMost(w, u) { KeyLeTransitive(SortKey(w), SortKey(u), SortKey(v)); }
  }

  lemma FirstHighest(versions: map<string, string>, names: seq<string>, v: string, at: nat)
    requires names == Sorted(versions.Keys) && Leading(versions, names, |names|, v, at)
    ensures IsReference(versions, v)
  {
    forall m | m in versions && StrLt(m, names[at]) ensures !AtMost(v, versions[m]) {
      assert m in names;
      var k :| 0 <= k < |names| && names[k] == m;
      if k > at { StrLeAntisymmetric(names[at], names[k]); }
    }
    assert IsFirstHighest(versions, v, names[at]);
    forall m | m in versions ensures AtMost(versions[m], v) { assert m in names; }
  }

  // ---- The audit ----

  /** An app's manifest and the versions its lock file gives for what it declares. */
  datatype Manifest = Manifest(dependencies: map<string, string>, devDependencies: map<string, string>,
                               locked: map<string, string>)

  type Surfaces = map<string, Manifest>
  type Exceptions = set<(string, string)>

  datatype Dimension = Range | Lock

  datatype Finding = Finding(app: string, package: string, dimension: Dimension, found: string, expected: string,
                             laggingException: bool, agree: seq<string>)

  /** Development dependencies override. */
  function Declared(m: Manifest): map<string, string> {
    m.dependencies + m.devDependencies
  }

  function Locked(m: Manifest): map<string, string> {
    map p | p in m.locked && p in Declared(m) :: m.locked[p]
  }

  function Along(m: Manifest, dimension: Dimension): map<string, string> {
    if dimension == Range then Declared(m) else Locked(m)
  }

  function Versions(surfaces: Surfaces, package: string, dimension: Dimension): map<string, string> {
    map app | app in surfaces && package in Along(surfaces[app], dimension) :: Along(surfaces[app], dimension)[package]
  }

  function Regular(versions: map<string, string>, package: string, exceptions: Exceptions): map<string, string> {
    map app | app in versions && (app, package) !in exceptions :: versions[app]
  }

  /** The package is compared, and this is what the apps should have. */
  ghost predicate Expects(surfaces: Surfaces, exceptions: Exceptions, package: string, dimension: Dimension,
                          v: string) {
    && |Versions(surfaces, package, Range)| >= 2 && |Versions(surfaces, package, dimension)| >= 2
    && IsReference(Regular(Versions(surfaces, package, dimension), package, exceptions), v)
  }

  function Agreeing(regular: map<string, string>, expected: string): seq<string> {
    Sorted(set app | app in regular && regular[app] == expected)
  }

  /** What the audit would say of an app, whether or not it diverges. */
  function FindingFor(surfaces: Surfaces, exceptions: Exceptions, package: string, dimension: Dimension,
                      expected: string, app: string): Finding
  {
    var versions := Versions(surfaces, package, dimension);
    Finding(app, package, dimension, if app in versions then versions[app]
            else "", expected, (app, package) in exceptions,
            Agreeing(Regular(versions, package, exceptions), expected))
  }

  /** An exception allows an app to differ, not to lag behind. */
  predicate Diverges(f: Finding) {
    f.found != f.expected && !(f.laggingException && AtMost(f.expected, f.found))
  }

  /** What must be reported, and nothing else. */
  ghost predicate Reported(surfaces: Surfaces, exceptions: Exceptions, f: Finding) {
    && f.app in Versions(surfaces, f.package, f.dimension)
    && Expects(surfaces, exceptions, f.package, f.dimension, f.expected)
    && f == FindingFor(surfaces, exceptions, f.package, f.dimension, f.expected, f.app)
    && Diverges(f)
  }

  function Packages(surfaces: Surfaces): set<string> {
    set app, p | app in surfaces && p in Declared(surfaces[app]) :: p
  }

  /** The findings of the given apps, in their order. */
  function Diverging(surfaces: Surfaces, exceptions: Exceptions, package: string, dimension: Dimension,
                     expected: string, apps: seq<string>): seq<Finding>
  {
    if apps == [] then []
    else
      var f := FindingFor(surfaces, exceptions, package, dimension, expected, apps[|apps| - 1]);
      Diverging(surfaces, exceptions, package, dimension, expected, apps[..|apps| - 1]) + if Diverges(f) then [f]
        else []
  }

  lemma {:induction false} InDiverging(surfaces: Surfaces, exceptions: Exceptions, package: string,
                                       dimension: Dimension,
                                       expected: string, apps: seq<string>, f: Finding)
    ensures f in Diverging(surfaces, exceptions, package, dimension, expected, apps) <==>
            f.app in apps && f == FindingFor(surfaces, exceptions, package, dimension, expected, f.app) && Diverges(f)
    decreases |apps|
  {
    if apps != [] {
      InDiverging(surfaces, exceptions, package, dimension, expected, apps[..|apps| - 1], f);
      assert apps == apps[..|apps| - 1] + [apps[|apps| - 1]];
    }
  }

  /** Exactly the findings about one package and dimension. */
  ghost predicate Lists(surfaces: Surfaces, exceptions: Exceptions, findings: seq<Finding>, package: string,
                        dimension: Dimension) {
    forall f :: f in findings <==> f.package == package && f.dimension == dimension && Reported(surfaces, exceptions, f)
  }

  lemma DivergingIsReported(surfaces: Surfaces, exceptions: Exceptions, package: string, dimension: Dimension,
                            expected: string)
    requires Expects(surfaces, exceptions, package, dimension, expected)
    ensures Lists(surfaces, exceptions, Diverging(surfaces, exceptions, package, dimension, expected,
                                                  Sorted(Versions(surfaces, package, dimension).Keys)), package,
                                                    dimension)
  {
    var apps := Sorted(Versions(surfaces, package, dimension).Keys);
    forall f ensures f in Diverging(surfaces, exceptions, package, dimension, expected, apps) <==>
                     f.package == package && f.dimension == dimension && Reported(surfaces, exceptions, f)
    {
      InDiverging(surfaces, exceptions, package, dimension, expected, apps, f);
      if f.package == package && f.dimension == dimension && Reported(surfaces, exceptions, f) {
        ReferenceUnique(Regular(Versions(surfaces, package, dimension), package, exceptions), expected, f.expected);
      }
    }
  }

  /** By package, declared ranges before lock files, by app. */
  predicate Before(f: Finding, g: Finding) {
    || StrLt(f.package, g.package)
    || (f.package == g.package && f.dimension == Range && g.dimension == Lock)
    || (f.package == g.package && f.dimension == g.dimension && StrLt(f.app, g.app))
  }

  predicate InOrder(findings: seq<Finding>) {
    forall i, j :: 0 <= i < j < |findings| ==> Before(findings[i], findings[j])
  }

  lemma {:induction false} DivergingInOrder(surfaces: Surfaces, exceptions: Exceptions, package: string,
                                            dimension: Dimension,
                                            expected: string, apps: seq<string>)
    requires StrictlySorted(apps)
    ensures InOrder(Diverging(surfaces, exceptions, package, dimension, expected, apps))
    decreases |apps|
  {
    if apps != [] {
      var init, last := apps[..|apps| - 1], apps[|apps| - 1];
      var before := Diverging(surfaces, exceptions, package, dimension, expected, init);
      DivergingInOrder(surfaces, exceptions, package, dimension, expected, init);
      forall f | f in before ensures f.package == package && f.dimension == dimension && StrLt(f.app, last) {
        InDiverging(surfaces, exceptions, package, dimension, expected, init, f);
        var k :| 0 <= k < |init| && init[k] == f.app;
        assert apps[k] == f.app;
      }
    }
  }

  /** The findings of one package along one dimension. */
  method AuditOne(surfaces: Surfaces, exceptions: Exceptions, package: string, dimension: Dimension)
    returns (findings: seq<Finding>)
    requires |Versions(surfaces, package, Range)| >= 2
    ensures Lists(surfaces, exceptions, findings, package, dimension) && InOrder(findings)
  {
    findings := [];
    var versions := Versions(surfaces, package, dimension);
    if |versions| < 2 {
      return;
    }
    var regular := Regular(versions, package, exceptions);
    if regular == map[] {
      return;
    }
    var expected := ReferenceVersion(regular);
    findings := Compare(surfaces, exceptions, package, dimension, expected);
    DivergingIsReported(surfaces, exceptions, package, dimension, expected);
    DivergingInOrder(surfaces, exceptions, package, dimension, expected, Sorted(versions.Keys));
  }

  /** Each app, in name order, against the expected version. */
  method Compare(surfaces: Surfaces, exceptions: Exceptions, package: string, dimension: Dimension, expected: string)
    returns (findings: seq<Finding>)
    ensures findings == Diverging(surfaces, exceptions, package, dimension, expected,
                                  Sorted(Versions(surfaces, package, dimension).Keys))
  {
    var versions := Versions(surfaces, package, dimension);
    var agree := Agreeing(Regular(versions, package, exceptions), expected);
    var names := Sorted(versions.Keys);
    findings := [];
    for i := 0 to |names|
      invariant findings == Diverging(surfaces, exceptions, package, dimension, expected, names[..i])
    {
      var app := names[i];
      DivergingMore(surfaces, exceptions, package, dimension, expected, names, i);
      var excepted := (app, package) in exceptions;
      if versions[app] == expected || (excepted && AtMost(expected, versions[app])) {
        continue;
      }
      findings := findings + [Finding(app, package, dimension, versions[app], expected, excepted, agree)];
    }
    assert names[..|names|] == names;
  }

  lemma DivergingMore(surfaces: Surfaces, exceptions: Exceptions, package: string, dimension: Dimension,
                      expected: string, apps: seq<string>, i: nat)
    requires i < |apps|
    ensures var f := FindingFor(surfaces, exceptions, package, dimension, expected, apps[i]);
            Diverging(surfaces, exceptions, package, dimension, expected, apps[..i]) + (if Diverges(f) then [f] else [])
            == Diverging(surfaces, exceptions, package, dimension, expected, apps[..i + 1])
  {
    assert apps[..i + 1][..i] == apps[..i];
  }

  /** Exactly the findings about the given packages. */
  ghost predicate ListsAll(surfaces: Surfaces, exceptions: Exceptions, findings: seq<Finding>, packages: set<string>) {
    forall f :: f in findings <==> f.package in packages && Reported(surfaces, exceptions, f)
  }

  lemma ListsMore(surfaces: Surfaces, exceptions: Exceptions, findings: seq<Finding>, packages: set<string>,
                  package: string,
                  ranges: seq<Finding>, locks: seq<Finding>)
    requires ListsAll(surfaces, exceptions, findings, packages)
    requires Lists(surfaces, exceptions, ranges, package, Range) && Lists(surfaces, exceptions, locks, package, Lock)
    ensures ListsAll(surfaces, exceptions, findings + ranges + locks, packages + {package})
  {
  }

  lemma OrderMore(surfaces: Surfaces, exceptions: Exceptions, findings: seq<Finding>, packages: seq<string>, i: nat,
                  ranges: seq<Finding>, locks: seq<Finding>)
    requires i < |packages| && StrictlySorted(packages)
    requires ListsAll(surfaces, exceptions, findings, Elements(packages[..i]))
    requires Lists(surfaces, exceptions, ranges, packages[i], Range)
    requires Lists(surfaces, exceptions, locks, packages[i], Lock)
    requires InOrder(findings) && InOrder(ranges) && InOrder(locks)
    ensures InOrder(findings + ranges + locks)
  {
    forall f | f in findings ensures StrLt(f.package, packages[i]) {
      var k :| 0 <= k < i && packages[k] == f.package;
    }
    OrderJoins(findings, ranges);
    OrderJoins(findings + ranges, locks);
  }

  lemma OrderJoins(a: seq<Finding>, b: seq<Finding>)
    requires InOrder(a) && InOrder(b) && forall f, g :: f in a && g in b ==> Before(f, g)
    ensures InOrder(a + b)
  {
  }

  /** Every divergence between apps that declare the same package, by package, dimension and app, each once. */
  method Audit(surfaces: Surfaces, exceptions: Exceptions) returns (findings: seq<Finding>)
    ensures forall f :: f in findings <==> Reported(surfaces, exceptions, f)
    ensures InOrder(findings)
  {
    var packages := Sorted(Packages(surfaces));
    findings := [];
    for i := 0 to |packages|
      invariant ListsAll(surfaces, exceptions, findings, Elements(packages[..i])) && InOrder(findings)
    {
      var package := packages[i];
      var ranges, locks := AuditBoth(surfaces, exceptions, package);
      ListsMore(surfaces, exceptions, findings, Elements(packages[..i]), package, ranges, locks);
      OrderMore(surfaces, exceptions, findings, packages, i, ranges, locks);
      OneMore(packages, i);
      findings := findings + ranges + locks;
    }
    assert packages[..|packages|] == packages;
  }

  /** A shared package along both dimensions; there is nothing to compare when one app alone declares it. */
  method AuditBoth(surfaces: Surfaces, exceptions: Exceptions, package: string)
    returns (ranges: seq<Finding>, locks: seq<Finding>)
    ensures Lists(surfaces, exceptions, ranges, package, Range) && InOrder(ranges)
    ensures Lists(surfaces, exceptions, locks, package, Lock) && InOrder(locks)
  {
    ranges, locks := [], [];
    if |Versions(surfaces, package, Range)| < 2 {
      return;
    }
    ranges := AuditOne(surfaces, exceptions, package, Range);
    locks := AuditOne(surfaces, exceptions, package, Lock);
  }

  // ---- What a finding says ----

  /** The version an app has of a package it declares: development dependencies override, locks count only then. */
  function VersionOf(m: Manifest, package: string, dimension: Dimension): Option<string> {
    if package !in m.dependencies && package !in m.devDependencies then None
    else if dimension == Lock then (if package in m.locked then Some(m.locked[package]) else None)
    else Some(if package in m.devDependencies then m.devDependencies[package] else m.dependencies[package])
  }

  lemma VersionsExactly(surfaces: Surfaces, package: string, dimension: Dimension, app: string)
    ensures app in Versions(surfaces, package, dimension) <==>
            app in surfaces && VersionOf(surfaces[app], package, dimension).Some?
    ensures app in Versions(surfaces, package, dimension) ==>
              VersionOf(surfaces[app], package, dimension) == Some(Versions(surfaces, package, dimension)[app])
  {
  }

  /**
   A finding tells the version the app really has, which is not the expected one; the expected one is that of an app
   without exception, and the apps named are exactly those without exception that have it.
   */
  lemma FindingTells(surfaces: Surfaces, exceptions: Exceptions, f: Finding, app: string)
    requires Reported(surfaces, exceptions, f)
    ensures f.app in surfaces && VersionOf(surfaces[f.app], f.package, f.dimension) == Some(f.found)
    ensures f.found != f.expected && (f.laggingException <==> (f.app, f.package) in exceptions)
    ensures app in f.agree <==>
            && app in surfaces && (app, f.package) !in exceptions
            && VersionOf(surfaces[app], f.package, f.dimension) == Some(f.expected)
    ensures f.agree != [] && StrictlySorted(f.agree)
  {
    var versions := Versions(surfaces, f.package, f.dimension);
    VersionsExactly(surfaces, f.package, f.dimension, f.app);
    VersionsExactly(surfaces, f.package, f.dimension, app);
    var n :| IsFirstHighest(Regular(versions, f.package, exceptions), f.expected, n);
    assert n in f.agree;
  }
}
