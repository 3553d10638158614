/** Every top-level symbol owned exactly once: the claims of units and of support code against the definitions. */
module Ownership {
  import opened Texts

  /** The top-level symbols of every source file. */
  type Facts = map<string, set<string>>

  datatype SupportClaim = SupportClaim(responsibility: string, symbols: seq<string>)

  datatype Source = Source(path: string, support: seq<SupportClaim>, unitIds: seq<string>)

  datatype Claim = Claim(path: string, symbols: seq<string>)

  datatype Unit = Unit(id: string, claims: seq<Claim>)

  datatype Failure =
    | DuplicateSource | Coverage | Schema | SupportSymbol | DuplicateId | ManifestMissing | ManifestOrphan
    | SourceOrphan | SymbolUnresolved | SymbolOverlap | SymbolCoverage | InventoryDrift

  // ---- The claims, listed ----

  /** A symbol of a file. */
  type Ref = (string, string)

  function RefsOf(path: string, symbols: seq<string>): seq<Ref> {
    seq(|symbols|, i requires 0 <= i < |symbols| => (path, symbols[i]))
  }

  function SupportRefs(path: string, claims: seq<SupportClaim>): seq<Ref> {
    if claims == [] then []
    else SupportRefs(path, claims[..|claims| - 1]) + RefsOf(path, claims[|claims| - 1].symbols)
  }

  function AllSupportRefs(sources: seq<Source>): seq<Ref> {
    if sources == [] then []
    else
      var s := sources[|sources| - 1];
      AllSupportRefs(sources[..|sources| - 1]) + SupportRefs(s.path, s.support)
  }

  function UnitRefs(claims: seq<Claim>): seq<Ref> {
    if claims == [] then []
    else
      var c := claims[|claims| - 1];
      UnitRefs(claims[..|claims| - 1]) + RefsOf(c.path, c.symbols)
  }

  function AllUnitRefs(units: seq<Unit>): seq<Ref> {
    if units == [] then [] else AllUnitRefs(units[..|units| - 1]) + UnitRefs(units[|units| - 1].claims)
  }

  /** No repeats, and nothing that is already taken. */
  predicate Apart<T(==)>(xs: seq<T>, taken: set<T>) {
    NoRepeats(xs) && Elements(xs) !! taken
  }

  lemma ApartJoin<T>(a: seq<T>, b: seq<T>, taken: set<T>)
    ensures Apart(a + b, taken) <==> Apart(a, taken) && Apart(b, taken + Elements(a))
    ensures Elements(a + b) == Elements(a) + Elements(b)
  {
    var c := a + b;
    if Apart(c, taken) {
      assert forall i :: 0 <= i < |a| ==> c[i] == a[i];
      assert forall i :: 0 <= i < |b| ==> c[|a| + i] == b[i];
      forall x | x in b ensures x !in taken + Elements(a) {
        var i :| 0 <= i < |b| && b[i] == x;
        assert c[|a| + i] in c;
      }
      forall x | x in a ensures x !in taken { assert x in c; }
    }
    if Apart(a, taken) && Apart(b, taken + Elements(a)) {
      forall i, j | 0 <= i < j < |c| ensures c[i] != c[j] {
        if j < |a| {
        } else if i >= |a| {
          assert b[i - |a|] != b[j - |a|];
        } else {
          assert a[i] in a && b[j - |a|] in b;
          assert b[j - |a|] in Elements(b);
        }
      }
    }
  }

  // ---- What is accepted ----

  /**
   A source's own entries: claims in order, of known symbols, each once; an empty file has one empty claim
   and no unit.
   */
  predicate SourceOk(facts: Facts, s: Source) {
    && s.path in facts
    && (forall i, j :: 0 <= i < j < |s.support| ==> StrLt(s.support[i].responsibility, s.support[j].responsibility))
    && (if facts[s.path] == {} then |s.support| == 1 && s.support[0].symbols == [] && s.unitIds == []
        else forall c :: c in s.support ==> c.symbols != [])
    && (forall c :: c in s.support ==> StrictlySorted(c.symbols) && Elements(c.symbols) <= facts[s.path])
    && NoRepeats(SupportRefs(s.path, s.support))
    && StrictlySorted(s.unitIds)
  }

  predicate ClaimOk(facts: Facts, c: Claim) {
    && c.path in facts && "*" !in c.symbols && (c.symbols == [] ==> facts[c.path] == {})
    && Elements(c.symbols) <= facts[c.path]
  }

  predicate UnitOk(facts: Facts, u: Unit) {
    u.claims != [] && forall c :: c in u.claims ==> ClaimOk(facts, c)
  }

  function Paths(sources: seq<Source>): seq<string> {
    seq(|sources|, i requires 0 <= i < |sources| => sources[i].path)
  }

  function Ids(units: seq<Unit>): seq<string> {
    seq(|units|, i requires 0 <= i < |units| => units[i].id)
  }

  predicate ClaimsPath(u: Unit, path: string) {
    exists c :: c in u.claims && c.path == path
  }

  /** The units that claim something of a file. */
  function Claimants(units: seq<Unit>, path: string): set<string> {
    set u | u in units && ClaimsPath(u, path) :: u.id
  }

  predicate Defined(facts: Facts, r: Ref) {
    r.0 in facts && r.1 in facts[r.0]
  }

  /** Each definition is claimed, and no claim is made twice. */
  ghost predicate OwnedOnce(facts: Facts, sources: seq<Source>, units: seq<Unit>) {
    && NoRepeats(AllSupportRefs(sources) + AllUnitRefs(units))
    && forall r: Ref :: r in AllSupportRefs(sources) + AllUnitRefs(units) <==> Defined(facts, r)
  }

  ghost predicate Accepted(facts: Facts, sources: seq<Source>, units: seq<Unit>) {
    && NoRepeats(Paths(sources)) && Elements(Paths(sources)) == facts.Keys
    && (forall s :: s in sources ==> SourceOk(facts, s))
    && NoRepeats(Ids(units)) && (forall u :: u in units ==> UnitOk(facts, u))
    && OwnedOnce(facts, sources, units)
    && forall s :: s in sources ==> Elements(s.unitIds) == Claimants(units, s.path)
  }

  // ---- The physical inventory ----

  method CheckNoRepeats(xs: seq<string>) returns (ok: bool)
    ensures ok <==> NoRepeats(xs)
  {
    var seen: set<string> := {};
    ok := true;
    for i := 0 to |xs|
      invariant ok && NoRepeats(xs[..i]) && seen == Elements(xs[..i])
    {
      OneMore(xs, i);
      if xs[i] in seen {
        var k :| 0 <= k < i && xs[k] == xs[i];
        return false;
      }
      assert forall k :: 0 <= k < i ==> xs[k] in xs[..i];
      seen := seen + {xs[i]};
    }
    assert xs[..|xs|] == xs;
  }

  /** The support claims of one file, in their order. */
  method CheckSupport(facts: Facts, s: Source) returns (ok: bool)
    requires s.path in facts
    ensures ok <==> (forall c :: c in s.support ==> StrictlySorted(c.symbols) && Elements(c.symbols) <= facts[s.path]
                                                    && (c.symbols == [] ==> facts[s.path] == {}))
                    && NoRepeats(SupportRefs(s.path, s.support))
  {
    var seen: set<string> := {};
    ok := true;
    for i := 0 to |s.support|
      invariant SupportChecked(facts, s, i, seen)
    {
      var symbols := s.support[i].symbols;
      SupportStep(facts, s, i, seen);
      if (symbols == [] && facts[s.path] != {}) || !StrictlySorted(symbols)
         || !((set x | x in symbols) <= facts[s.path]) || seen * (set x | x in symbols) != {} {
        return false;
      }
      seen := seen + set x | x in symbols;
    }
    assert s.support[..|s.support|] == s.support;
  }

  predicate SupportClaimOk(facts: Facts, path: string, c: SupportClaim)
    requires path in facts
  {
    StrictlySorted(c.symbols) && Elements(c.symbols) <= facts[path] && (c.symbols == [] ==> facts[path] == {})
  }

  function OfFile(path: string, symbols: set<string>): set<Ref> {
    set x | x in symbols :: (path, x)
  }

  lemma OfFileJoins(path: string, a: set<string>, b: set<string>)
    ensures OfFile(path, a + b) == OfFile(path, a) + OfFile(path, b)
    ensures a * b == {} <==> OfFile(path, b) !! OfFile(path, a)
  {
    var both := OfFile(path, a) * OfFile(path, b);
    forall r: Ref | r in both ensures r.1 in a * b {}
    forall x | x in a * b ensures (path, x) in both {}
  }

  /** The first `i` claims are in order, and `seen` are their symbols. */
  ghost predicate SupportChecked(facts: Facts, s: Source, i: nat, seen: set<string>)
    requires s.path in facts
  {
    && i <= |s.support| && (forall c :: c in s.support[..i] ==> SupportClaimOk(facts, s.path, c))
    && NoRepeats(SupportRefs(s.path, s.support[..i]))
    && Elements(SupportRefs(s.path, s.support[..i])) == OfFile(s.path, seen)
  }

  lemma {:induction false} SupportPrefix(path: string, claims: seq<SupportClaim>, i: nat)
    requires i <= |claims| && NoRepeats(SupportRefs(path, claims))
    ensures NoRepeats(SupportRefs(path, claims[..i]))
    decreases |claims|
  {
    if i < |claims| {
      var init := claims[..|claims| - 1];
      ApartJoin(SupportRefs(path, init), RefsOf(path, claims[|claims| - 1].symbols), {});
      SupportPrefix(path, init, i);
      assert init[..i] == claims[..i];
    } else {
      assert claims[..i] == claims;
    }
  }

  lemma SupportStep(facts: Facts, s: Source, i: nat, seen: set<string>)
    requires s.path in facts && i < |s.support| && SupportChecked(facts, s, i, seen)
    ensures var c := s.support[i];
            var ok := SupportClaimOk(facts, s.path, c) && seen * Elements(c.symbols) == {};
            && (ok ==> SupportChecked(facts, s, i + 1, seen + Elements(c.symbols)))
            && (!ok ==> !(SupportClaimOk(facts, s.path, c) && NoRepeats(SupportRefs(s.path, s.support))))
  {
    var c := s.support[i];
    assert s.support[..i + 1] == s.support[..i] + [c] && s.support[..i + 1][..i] == s.support[..i];
    ApartJoin(SupportRefs(s.path, s.support[..i]), RefsOf(s.path, c.symbols), {});
    RefsElements(s.path, c.symbols);
    OfFileJoins(s.path, seen, Elements(c.symbols));
    if NoRepeats(SupportRefs(s.path, s.support)) { SupportPrefix(s.path, s.support, i + 1); }
  }

  lemma RefsElements(path: string, symbols: seq<string>)
    ensures Elements(RefsOf(path, symbols)) == OfFile(path, Elements(symbols))
  {
    var refs := RefsOf(path, symbols);
    forall x | x in symbols ensures (path, x) in refs {
      var i :| 0 <= i < |symbols| && symbols[i] == x;
      assert refs[i] == (path, x);
    }
  }

  method CheckSource(facts: Facts, s: Source) returns (failure: Option<Failure>)
    requires s.path in facts
    ensures failure.None? <==> SourceOk(facts, s)
  {
    var i := 0;
    while i + 1 < |s.support| && StrLt(s.support[i].responsibility, s.support[i + 1].responsibility)
      invariant InOrder(s.support, i) && (s.support != [] ==> i < |s.support|)
    {
      InOrderMore(s.support, i);
      i := i + 1;
    }
    if i + 1 < |s.support| {
      assert !StrLt(s.support[i].responsibility, s.support[i + 1].responsibility);
      return Some(Schema);
    }
    if facts[s.path] == {} {
      if |s.support| != 1 || s.support[0].symbols != [] || s.unitIds != [] {
        return Some(SupportSymbol);
      }
    } else if exists c :: c in s.support && c.symbols == [] {
      return Some(SupportSymbol);
    }
    var ok := CheckSupport(facts, s);
    if !ok {
      return Some(SupportSymbol);
    }
    if !StrictlySorted(s.unitIds) {
      return Some(Schema);
    }
    return None;
  }

  /** The responsibilities up to `i` are in strict order. */
  predicate InOrder(claims: seq<SupportClaim>, i: nat) {
    forall j, k :: 0 <= j < k <= i && k < |claims| ==> StrLt(claims[j].responsibility, claims[k].responsibility)
  }

  lemma InOrderMore(claims: seq<SupportClaim>, i: nat)
    requires i + 1 < |claims| && InOrder(claims, i) && StrLt(claims[i].responsibility, claims[i + 1].responsibility)
    ensures InOrder(claims, i + 1)
  {
    forall j | 0 <= j < i + 1 ensures StrLt(claims[j].responsibility, claims[i + 1].responsibility) {
      if j < i {
        var a, b, c := claims[j].responsibility, claims[i].responsibility, claims[i + 1].responsibility;
        StrLeTransitive(a, b, c);
        if a == c { StrLeAntisymmetric(a, b); }
      }
    }
  }

  /** Every file inventoried once, and every entry in order. */
  method CheckInventory(facts: Facts, sources: seq<Source>) returns (failure: Option<Failure>)
    ensures failure.None? <==> NoRepeats(Paths(sources)) && Elements(Paths(sources)) == facts.Keys
                               && forall s :: s in sources ==> SourceOk(facts, s)
  {
    var paths := Paths(sources);
    var once := CheckNoRepeats(paths);
    if !once {
      return Some(DuplicateSource);
    }
    if (set p | p in paths) != facts.Keys {
      return Some(Coverage);
    }
    for i := 0 to |sources|
      invariant forall s :: s in sources[..i] ==> SourceOk(facts, s)
    {
      assert paths[i] in paths;
      var failed := CheckSource(facts, sources[i]);
      if failed.Some? {
        assert sources[i] in sources;
        return failed;
      }
      assert sources[..i + 1] == sources[..i] + [sources[i]];
    }
    assert sources[..|sources|] == sources;
    return None;
  }

  // ---- The claims ----

  datatype Owner = SupportOwner(responsibility: string) | UnitOwner(id: string)

  type Owners = map<Ref, Owner>

  function Assigned(owners: Owners, refs: seq<Ref>, owner: Owner): Owners {
    map r | r in owners.Keys + Elements(refs) :: if r in refs then owner else owners[r]
  }

  lemma AssignedMore(owners: Owners, refs: seq<Ref>, more: seq<Ref>, owner: Owner)
    ensures Assigned(Assigned(owners, refs, owner), more, owner) == Assigned(owners, refs + more, owner)
    ensures Assigned(owners, refs, owner).Keys == owners.Keys + Elements(refs)
  {
    assert forall r :: r in refs + more <==> r in refs || r in more;
  }

  lemma AssignedNone(owners: Owners, owner: Owner)
    ensures Assigned(owners, [], owner) == owners && Apart([], owners.Keys)
  {
    var none: seq<Ref> := [];
    assert Elements(none) == {};
  }

  /** The symbols of one claim, each refused when it has an owner already. */
  method ClaimSymbols(path: string, symbols: seq<string>, owner: Owner, owners: Owners)
    returns (ok: bool, result: Owners)
    ensures ok <==> Apart(RefsOf(path, symbols), owners.Keys)
    ensures ok ==> result == Assigned(owners, RefsOf(path, symbols), owner)
  {
    ok, result := true, owners;
    AssignedNone(owners, owner);
    for i := 0 to |symbols|
      invariant Apart(RefsOf(path, symbols[..i]), owners.Keys)
                && result == Assigned(owners, RefsOf(path, symbols[..i]), owner)
    {
      var r := (path, symbols[i]);
      RefsPrefix(path, symbols, i);
      ApartJoin(RefsOf(path, symbols[..i]), [r], owners.Keys);
      AssignedMore(owners, RefsOf(path, symbols[..i]), [r], owner);
      if r in result {
        ApartJoin(RefsOf(path, symbols[..i + 1]), RefsOf(path, symbols[i + 1..]), owners.Keys);
        return false, result;
      }
      result := result[r := owner];
    }
    assert symbols[..|symbols|] == symbols;
  }

  lemma RefsPrefix(path: string, symbols: seq<string>, i: nat)
    requires i < |symbols|
    ensures RefsOf(path, symbols[..i + 1]) == RefsOf(path, symbols[..i]) + [(path, symbols[i])]
    ensures RefsOf(path, symbols) == RefsOf(path, symbols[..i + 1]) + RefsOf(path, symbols[i + 1..])
  {
  }

  /** The claims of one unit. */
  method ClaimUnit(facts: Facts, u: Unit, owners: Owners) returns (failure: Option<Failure>, result: Owners)
    ensures failure.None? <==> UnitOk(facts, u) && Apart(UnitRefs(u.claims), owners.Keys)
    ensures failure.None? ==> result == Assigned(owners, UnitRefs(u.claims), UnitOwner(u.id))
  {
    result := owners;
    if u.claims == [] {
      return Some(Schema), result;
    }
    AssignedNone(owners, UnitOwner(u.id));
    for i := 0 to |u.claims|
      invariant forall c :: c in u.claims[..i] ==> ClaimOk(facts, c)
      invariant Apart(UnitRefs(u.claims[..i]), owners.Keys)
      invariant result == Assigned(owners, UnitRefs(u.claims[..i]), UnitOwner(u.id))
    {
      var c := u.claims[i];
      assert u.claims[..i + 1] == u.claims[..i] + [c];
      if !ClaimOk(facts, c) {
        failure := Some(if c.path !in facts then SourceOrphan else if Elements(c.symbols) <= facts[c.path] then Schema
                        else SymbolUnresolved);
        return;
      }
      var ok;
      ClaimsJoin(u.claims, i, owners.Keys);
      AssignedMore(owners, UnitRefs(u.claims[..i]), RefsOf(c.path, c.symbols), UnitOwner(u.id));
      ok, result := ClaimSymbols(c.path, c.symbols, UnitOwner(u.id), result);
      if !ok {
        return Some(SymbolOverlap), result;
      }
    }
    assert u.claims[..|u.claims|] == u.claims;
    return None, result;
  }

  /** A claim that overlaps what was claimed before makes the whole list overlap. */
  lemma {:induction false} ClaimsJoin(claims: seq<Claim>, i: nat, taken: set<Ref>)
    requires i < |claims|
    ensures var refs := RefsOf(claims[i].path, claims[i].symbols);
            && UnitRefs(claims[..i + 1]) == UnitRefs(claims[..i]) + refs
            && (Apart(UnitRefs(claims[..i + 1]), taken) <==>
                Apart(UnitRefs(claims[..i]), taken) && Apart(refs, taken + Elements(UnitRefs(claims[..i]))))
            && (Apart(UnitRefs(claims), taken) ==> Apart(UnitRefs(claims[..i + 1]), taken))
    decreases |claims|
  {
    assert claims[..i + 1][..i] == claims[..i];
    ApartJoin(UnitRefs(claims[..i]), RefsOf(claims[i].path, claims[i].symbols), taken);
    if i + 1 == |claims| {
      assert claims[..i + 1] == claims;
    } else {
      var init := claims[..|claims| - 1];
      var last := claims[|claims| - 1];
      ApartJoin(UnitRefs(init), RefsOf(last.path, last.symbols), taken);
      ClaimsJoin(init, i, taken);
      assert init[..i + 1] == claims[..i + 1];
    }
  }

  /** The claims of all units. */
  method ClaimUnits(facts: Facts, units: seq<Unit>, owners: Owners) returns (failure: Option<Failure>, result: Owners)
    ensures failure.None? <==> (forall u :: u in units ==> UnitOk(facts, u)) && Apart(AllUnitRefs(units), owners.Keys)
    ensures failure.None? ==> result.Keys == owners.Keys + Elements(AllUnitRefs(units))
    ensures failure.None? ==> forall r :: r in owners ==> result[r] == owners[r]
    ensures failure.None? ==> forall u, r :: u in units && r in UnitRefs(u.claims) ==>
              r in result && result[r] == UnitOwner(u.id)
  {
    result := owners;
    AssignedNone(owners, UnitOwner(""));
    for i := 0 to |units|
      invariant Claimed(facts, units[..i], owners, result)
    {
      var before := result;
      UnitsJoin(units, i, owners.Keys);
      assert units[..i + 1] == units[..i] + [units[i]];
      failure, result := ClaimUnit(facts, units[i], result);
      if failure.Some? {
        assert units[i] in units;
        return;
      }
      ClaimedMore(facts, units, i, owners, before, result);
    }
    assert units[..|units|] == units;
    return None, result;
  }

  ghost predicate Claimed(facts: Facts, units: seq<Unit>, owners: Owners, result: Owners) {
    && (forall u :: u in units ==> UnitOk(facts, u))
    && Apart(AllUnitRefs(units), owners.Keys)
    && result.Keys == owners.Keys + Elements(AllUnitRefs(units))
    && (forall r :: r in owners ==> r in result && result[r] == owners[r])
    && forall u, r :: u in units && r in UnitRefs(u.claims) ==> r in result && result[r] == UnitOwner(u.id)
  }

  lemma ClaimedMore(facts: Facts, units: seq<Unit>, i: nat, owners: Owners, before: Owners, after: Owners)
    requires i < |units| && Claimed(facts, units[..i], owners, before)
    requires UnitOk(facts, units[i]) && Apart(UnitRefs(units[i].claims), before.Keys)
    requires after == Assigned(before, UnitRefs(units[i].claims), UnitOwner(units[i].id))
    ensures Claimed(facts, units[..i + 1], owners, after)
  {
    var refs := UnitRefs(units[i].claims);
    ClaimedRefs(facts, units, i, owners, before);
  }

  lemma ClaimedRefs(facts: Facts, units: seq<Unit>, i: nat, owners: Owners, before: Owners)
    requires i < |units| && Claimed(facts, units[..i], owners, before)
    requires UnitOk(facts, units[i]) && Apart(UnitRefs(units[i].claims), before.Keys)
    ensures forall u :: u in units[..i + 1] ==> UnitOk(facts, u)
    ensures Apart(AllUnitRefs(units[..i + 1]), owners.Keys)
    ensures before.Keys + Elements(UnitRefs(units[i].claims)) == owners.Keys + Elements(AllUnitRefs(units[..i + 1]))
  {
    UnitsJoin(units, i, owners.Keys);
    ApartJoin(AllUnitRefs(units[..i]), UnitRefs(units[i].claims), owners.Keys);
    assert units[..i + 1] == units[..i] + [units[i]];
  }

  lemma {:induction false} UnitsJoin(units: seq<Unit>, i: nat, taken: set<Ref>)
    requires i < |units|
    ensures var refs := UnitRefs(units[i].claims);
            && AllUnitRefs(units[..i + 1]) == AllUnitRefs(units[..i]) + refs
            && (Apart(AllUnitRefs(units[..i + 1]), taken) <==>
                Apart(AllUnitRefs(units[..i]), taken) && Apart(refs, taken + Elements(AllUnitRefs(units[..i]))))
            && (Apart(AllUnitRefs(units), taken) ==> Apart(AllUnitRefs(units[..i + 1]), taken))
    decreases |units|
  {
    assert units[..i + 1][..i] == units[..i];
    ApartJoin(AllUnitRefs(units[..i]), UnitRefs(units[i].claims), taken);
    if i + 1 == |units| {
      assert units[..i + 1] == units;
    } else {
      var init := units[..|units| - 1];
      ApartJoin(AllUnitRefs(init), UnitRefs(units[|units| - 1].claims), taken);
      UnitsJoin(init, i, taken);
      assert init[..i + 1] == units[..i + 1];
    }
  }

  /** The owners given by the support claims of an inventory that was accepted. */
  method RegisterSupport(sources: seq<Source>) returns (owners: Owners)
    ensures owners.Keys == Elements(AllSupportRefs(sources))
    ensures forall r :: r in owners ==>
              owners[r].SupportOwner? && exists s :: s in sources && Responsible(s, r, owners[r])
  {
    owners := map[];
    for i := 0 to |sources|
      invariant owners.Keys == Elements(AllSupportRefs(sources[..i]))
      invariant forall r :: r in owners ==> exists s :: s in sources && Responsible(s, r, owners[r])
    {
      var s := sources[i];
      assert sources[..i + 1][..i] == sources[..i];
      ApartJoin(AllSupportRefs(sources[..i]), SupportRefs(s.path, s.support), {});
      owners := RegisterSource(s, owners);
    }
    assert sources[..|sources|] == sources;
  }

  /** The source's claim for the symbol has this responsibility. */
  predicate Responsible(s: Source, r: Ref, owner: Owner) {
    owner.SupportOwner? && r.0 == s.path && exists c ::
        c in s.support && r.1 in c.symbols && owner == SupportOwner(c.responsibility)
  }

  /** The claims of one source. */
  method RegisterSource(s: Source, before: Owners) returns (owners: Owners)
    ensures owners.Keys == before.Keys + Elements(SupportRefs(s.path, s.support))
    ensures forall r :: r in owners ==> (r in before && owners[r] == before[r]) || Responsible(s, r, owners[r])
  {
    owners := before;
    for j := 0 to |s.support|
      invariant owners.Keys == before.Keys + Elements(SupportRefs(s.path, s.support[..j]))
      invariant forall r :: r in owners ==> (r in before && owners[r] == before[r]) || Responsible(s, r, owners[r])
    {
      var c := s.support[j];
      assert s.support[..j + 1][..j] == s.support[..j];
      AssignedMore(owners, RefsOf(s.path, c.symbols), [], SupportOwner(c.responsibility));
      ApartJoin(SupportRefs(s.path, s.support[..j]), RefsOf(s.path, c.symbols), {});
      owners := Assigned(owners, RefsOf(s.path, c.symbols), SupportOwner(c.responsibility));
    }
    assert s.support[..|s.support|] == s.support;
  }

  lemma {:induction false} SupportRefsOfPath(path: string, claims: seq<SupportClaim>)
    ensures forall r: Ref :: r in SupportRefs(path, claims) ==> r.0 == path
    decreases |claims|
  {
    if claims != [] { SupportRefsOfPath(path, claims[..|claims| - 1]); }
  }

  /** Distinct files whose own claims do not repeat have no repeated claim together. */
  lemma {:induction false} SupportNoRepeats(sources: seq<Source>)
    requires NoRepeats(Paths(sources)) && forall s :: s in sources ==> NoRepeats(SupportRefs(s.path, s.support))
    ensures NoRepeats(AllSupportRefs(sources))
    ensures forall r: Ref :: r in AllSupportRefs(sources) ==>
              exists s :: s in sources && s.path == r.0 && r in SupportRefs(s.path, s.support)
    decreases |sources|
  {
    if sources != [] {
      var init, last := sources[..|sources| - 1], sources[|sources| - 1];
      assert sources == init + [last] && Paths(sources) == Paths(init) + [last.path];
      assert forall i :: 0 <= i < |init| ==> Paths(init)[i] == Paths(sources)[i];
      SupportNoRepeats(init);
      SupportRefsOfPath(last.path, last.support);
      forall s | s in init ensures s.path != last.path {
        var i :| 0 <= i < |init| && init[i] == s;
        assert Paths(sources)[i] != Paths(sources)[|init|];
      }
      ApartJoin(AllSupportRefs(init), SupportRefs(last.path, last.support), {});
    }
  }

  /** Support claims name defined symbols only. */
  lemma {:induction false} SupportRefsDefined(facts: Facts, path: string, claims: seq<SupportClaim>)
    requires path in facts && forall c :: c in claims ==> Elements(c.symbols) <= facts[path]
    ensures forall r: Ref :: r in SupportRefs(path, claims) ==> Defined(facts, r)
    decreases |claims|
  {
    if claims != [] {
      var last := claims[|claims| - 1];
      assert last in claims;
      SupportRefsDefined(facts, path, claims[..|claims| - 1]);
      RefsElements(path, last.symbols);
      forall r | r in RefsOf(path, last.symbols) ensures Defined(facts, r) {
        assert r in Elements(RefsOf(path, last.symbols));
      }
    }
  }

  lemma {:induction false} UnitRefsDefined(facts: Facts, claims: seq<Claim>)
    requires forall c :: c in claims ==> ClaimOk(facts, c)
    ensures forall r: Ref :: r in UnitRefs(claims) ==> Defined(facts, r)
    decreases |claims|
  {
    if claims != [] {
      var last := claims[|claims| - 1];
      assert last in claims;
      UnitRefsDefined(facts, claims[..|claims| - 1]);
      RefsElements(last.path, last.symbols);
      forall r | r in RefsOf(last.path, last.symbols) ensures Defined(facts, r) {
        assert r in Elements(RefsOf(last.path, last.symbols));
      }
    }
  }

  lemma {:induction false} AllUnitRefsDefined(facts: Facts, units: seq<Unit>)
    requires forall u :: u in units ==> UnitOk(facts, u)
    ensures forall r: Ref :: r in AllUnitRefs(units) ==> Defined(facts, r)
    decreases |units|
  {
    if units != [] {
      assert units[|units| - 1] in units;
      AllUnitRefsDefined(facts, units[..|units| - 1]);
      UnitRefsDefined(facts, units[|units| - 1].claims);
    }
  }

  /** What the claims and the coverage test establish together. */
  lemma OwnedWhen(facts: Facts, sources: seq<Source>, units: seq<Unit>, owned: set<Ref>)
    requires NoRepeats(Paths(sources)) && forall s :: s in sources ==> SourceOk(facts, s)
    requires forall u :: u in units ==> UnitOk(facts, u)
    requires owned == Elements(AllSupportRefs(sources)) + Elements(AllUnitRefs(units))
    ensures OwnedOnce(facts, sources, units) <==>
            Apart(AllUnitRefs(units), Elements(AllSupportRefs(sources))) && forall r: Ref :: Defined(facts, r) ==>
                r in owned
  {
    SupportNoRepeats(sources);
    ApartJoin(AllSupportRefs(sources), AllUnitRefs(units), {});
    AllUnitRefsDefined(facts, units);
    forall r: Ref | r in AllSupportRefs(sources) ensures Defined(facts, r) {
      var s :| s in sources && s.path == r.0 && r in SupportRefs(s.path, s.support);
      SupportRefsDefined(facts, s.path, s.support);
    }
    assert {} + Elements(AllSupportRefs(sources)) == Elements(AllSupportRefs(sources));
  }

  // ---- The whole gate ----

  function Definitions(facts: Facts): set<Ref> {
    set p, x | p in facts && x in facts[p] :: (p, x)
  }

  /** The units named by the inventory and those of the manifests are the same. */
  method CheckIds(sources: seq<Source>, units: seq<Unit>) returns (failure: Option<Failure>)
    ensures failure.None? <==> NoRepeats(Ids(units)) && InventoryIds(sources) == Elements(Ids(units))
  {
    var once := CheckNoRepeats(Ids(units));
    if !once {
      return Some(DuplicateId);
    }
    var byId := set id | id in Ids(units);
    if !(InventoryIds(sources) <= byId) {
      return Some(ManifestMissing);
    }
    if !(byId <= InventoryIds(sources)) {
      return Some(ManifestOrphan);
    }
    return None;
  }

  function InventoryIds(sources: seq<Source>): set<string> {
    set s, id | s in sources && id in s.unitIds :: id
  }

  /** When every file names exactly the units claiming it, the inventory and the manifests name the same units. */
  lemma IdsFollow(facts: Facts, sources: seq<Source>, units: seq<Unit>)
    requires Accepted(facts, sources, units)
    ensures InventoryIds(sources) == Elements(Ids(units))
  {
    forall id | id in Elements(Ids(units)) ensures id in InventoryIds(sources) {
      var i :| 0 <= i < |units| && Ids(units)[i] == id;
      UnitIsNamed(facts, sources, units, units[i]);
    }
    forall id | id in InventoryIds(sources) ensures id in Elements(Ids(units)) {
      var s :| s in sources && id in s.unitIds;
      assert id in Elements(s.unitIds);
      NamedIsUnit(units, s.path, id);
    }
  }

  lemma UnitIsNamed(facts: Facts, sources: seq<Source>, units: seq<Unit>, u: Unit)
    requires Elements(Paths(sources)) == facts.Keys && u in units && UnitOk(facts, u)
    requires forall s :: s in sources ==> Elements(s.unitIds) == Claimants(units, s.path)
    ensures u.id in InventoryIds(sources)
  {
    var path := u.claims[0].path;
    assert u.claims[0] in u.claims && ClaimOk(facts, u.claims[0]) && ClaimsPath(u, path);
    assert path in Elements(Paths(sources));
    var k :| 0 <= k < |sources| && Paths(sources)[k] == path;
    assert sources[k] in sources && u.id in Claimants(units, path);
    assert u.id in Elements(sources[k].unitIds);
  }

  lemma NamedIsUnit(units: seq<Unit>, path: string, id: string)
    requires id in Claimants(units, path)
    ensures id in Elements(Ids(units))
  {
    var u :| u in units && ClaimsPath(u, path) && u.id == id;
    var i :| 0 <= i < |units| && units[i] == u;
    assert Ids(units)[i] == id;
  }

  /** Each file names exactly the units that claim it. */
  method CheckDrift(sources: seq<Source>, units: seq<Unit>) returns (failure: Option<Failure>)
    ensures failure.None? <==> forall s :: s in sources ==> Elements(s.unitIds) == Claimants(units, s.path)
  {
    for i := 0 to |sources|
      invariant forall s :: s in sources[..i] ==> Elements(s.unitIds) == Claimants(units, s.path)
    {
      var s := sources[i];
      assert sources[..i + 1] == sources[..i] + [s] && s in sources;
      if (set id | id in s.unitIds) != Claimants(units, s.path) {
        return Some(InventoryDrift);
      }
    }
    assert sources[..|sources|] == sources;
    return None;
  }

  /** The gate passes exactly when ownership is exact. */
  method Validate(facts: Facts, sources: seq<Source>, units: seq<Unit>) returns (failure: Option<Failure>)
    ensures failure.None? <==> Accepted(facts, sources, units)
  {
    failure := CheckInventory(facts, sources);
    if failure.Some? {
      return;
    }
    failure := CheckIds(sources, units);
    if failure.Some? {
      if Accepted(facts, sources, units) { IdsFollow(facts, sources, units); }
      return;
    }
    failure := CheckClaims(facts, sources, units);
    if failure.Some? {
      return;
    }
    failure := CheckDrift(sources, units);
  }

  method CheckClaims(facts: Facts, sources: seq<Source>, units: seq<Unit>) returns (failure: Option<Failure>)
    requires NoRepeats(Paths(sources)) && forall s :: s in sources ==> SourceOk(facts, s)
    ensures failure.None? <==> (forall u :: u in units ==> UnitOk(facts, u)) && OwnedOnce(facts, sources, units)
  {
    var owners := RegisterSupport(sources);
    ghost var support := owners.Keys;
    failure, owners := ClaimUnits(facts, units, owners);
    if failure.Some? {
      if forall u :: u in units ==> UnitOk(facts, u) {
        OwnedWhen(facts, sources, units, support + Elements(AllUnitRefs(units)));
      }
      return;
    }
    OwnedWhen(facts, sources, units, owners.Keys);
    if !(Definitions(facts) <= owners.Keys) {
      return Some(SymbolCoverage);
    }
  }

  // ---- What an accepted inventory means for one symbol ----

  predicate UnitOwns(units: seq<Unit>, i: int, r: Ref) {
    0 <= i < |units| && r in UnitRefs(units[i].claims)
  }

  predicate SupportOwns(sources: seq<Source>, k: int, r: Ref) {
    0 <= k < |sources| && r in SupportRefs(sources[k].path, sources[k].support)
  }

  lemma {:induction false} UnitIndex(units: seq<Unit>, r: Ref)
    ensures r in AllUnitRefs(units) <==> exists i :: UnitOwns(units, i, r)
    decreases |units|
  {
    if units != [] {
      UnitIndex(units[..|units| - 1], r);
      UnitOwnsMore(units, r);
    }
  }

  lemma UnitOwnsMore(units: seq<Unit>, r: Ref)
    requires units != []
    ensures var init := units[..|units| - 1];
            (exists i :: UnitOwns(units, i, r)) <==>
            (exists i :: UnitOwns(init, i, r)) || r in UnitRefs(units[|units| - 1].claims)
  {
    var init, n := units[..|units| - 1], |units| - 1;
    forall i | 0 <= i < n ensures UnitOwns(units, i, r) <==> UnitOwns(init, i, r) {
      assert init[i] == units[i];
    }
    assert UnitOwns(units, n, r) <==> r in UnitRefs(units[n].claims);
  }

  lemma {:induction false} SupportIndex(sources: seq<Source>, r: Ref)
    ensures r in AllSupportRefs(sources) <==> exists k :: SupportOwns(sources, k, r)
    decreases |sources|
  {
    if sources != [] {
      SupportIndex(sources[..|sources| - 1], r);
      SupportOwnsMore(sources, r);
    }
  }

  lemma SupportOwnsMore(sources: seq<Source>, r: Ref)
    requires sources != []
    ensures var init, last := sources[..|sources| - 1], sources[|sources| - 1];
            (exists k :: SupportOwns(sources, k, r)) <==>
            (exists k :: SupportOwns(init, k, r)) || r in SupportRefs(last.path, last.support)
  {
    var init, n := sources[..|sources| - 1], |sources| - 1;
    forall k | 0 <= k < n ensures SupportOwns(sources, k, r) <==> SupportOwns(init, k, r) {
      assert init[k] == sources[k];
    }
    assert SupportOwns(sources, n, r) <==> r in SupportRefs(sources[n].path, sources[n].support);
  }

  lemma {:induction false} UnitUnique(units: seq<Unit>, i: int, j: int, r: Ref)
    requires NoRepeats(AllUnitRefs(units)) && UnitOwns(units, i, r) && UnitOwns(units, j, r)
    ensures i == j
    decreases |units|
  {
    var init := units[..|units| - 1];
    ApartJoin(AllUnitRefs(init), UnitRefs(units[|init|].claims), {});
    UnitIndex(init, r);
    assert UnitOwns(init, i, r) ==> r in Elements(AllUnitRefs(init));
    assert UnitOwns(init, j, r) ==> r in Elements(AllUnitRefs(init));
    assert r in UnitRefs(units[|init|].claims) ==> r in Elements(UnitRefs(units[|init|].claims));
    if i < |init| && j < |init| { UnitUnique(init, i, j, r); }
  }

  /**
   In an accepted inventory a symbol is defined exactly when it is owned, by a unit or by support but
   not by both, and no two units own it.
   */
  lemma EachSymbolOwnedOnce(facts: Facts, sources: seq<Source>, units: seq<Unit>, r: Ref)
    requires Accepted(facts, sources, units)
    ensures Defined(facts, r) <==> (exists i :: UnitOwns(units, i, r)) || (exists k :: SupportOwns(sources, k, r))
    ensures forall i, k :: !(UnitOwns(units, i, r) && SupportOwns(sources, k, r))
    ensures forall i, j :: UnitOwns(units, i, r) && UnitOwns(units, j, r) ==> i == j
    ensures forall k :: SupportOwns(sources, k, r) ==> sources[k].path == r.0
    ensures multiset(AllSupportRefs(sources) + AllUnitRefs(units))[r] == if Defined(facts, r) then 1 else 0
  {
    UnitIndex(units, r);
    SupportIndex(sources, r);
    var a, b := AllSupportRefs(sources), AllUnitRefs(units);
    ApartJoin(a, b, {});
    assert r in a + b <==> r in a || r in b;
    assert !(r in a && r in b) by { assert r in a && r in b ==> r in Elements(a) && r in Elements(b); }
    forall i, j | UnitOwns(units, i, r) && UnitOwns(units, j, r) ensures i == j { UnitUnique(units, i, j, r); }
    forall k | SupportOwns(sources, k, r) ensures sources[k].path == r.0 {
      SupportRefsOfPath(sources[k].path, sources[k].support);
    }
    CountOnce(a + b, r);
  }

  lemma {:induction false} CountOnce(refs: seq<Ref>, r: Ref)
    requires NoRepeats(refs)
    ensures multiset(refs)[r] == if r in refs then 1 else 0
    decreases |refs|
  {
    if refs != [] {
      var init := refs[..|refs| - 1];
      assert refs == init + [refs[|refs| - 1]];
      CountOnce(init, r);
      assert refs[|refs| - 1] !in init;
    }
  }

  // ---- What a claim says ----

  /** A unit's claim is accepted when it names symbols that its file defines, and none only where the file is empty. */
  lemma ClaimExactly(facts: Facts, c: Claim)
    ensures ClaimOk(facts, c) <==>
            && c.path in facts && (forall x :: x in c.symbols ==> x in facts[c.path] && x != "*")
            && (c.symbols == [] ==> forall x :: x !in facts[c.path])
  {
    if c.path in facts && forall x :: x !in facts[c.path] { assert facts[c.path] == {}; }
  }

  /** And so for support, whose symbols are listed in order, each once. */
  lemma SupportClaimExactly(facts: Facts, path: string, c: SupportClaim)
    requires path in facts
    ensures SupportClaimOk(facts, path, c) <==>
            && (forall x :: x in c.symbols ==> x in facts[path])
            && (forall i, j :: 0 <= i < j < |c.symbols| ==> StrLt(c.symbols[i], c.symbols[j]))
            && (c.symbols == [] ==> forall x :: x !in facts[path])
  {
    if forall x :: x !in facts[path] { assert facts[path] == {}; }
  }
}
