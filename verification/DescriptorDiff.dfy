/** The report of differences between a versioned descriptor and what the database projects. */
module DescriptorDiff {
  import opened Texts
  import opened JsonValues
  import opened Pointers

  /** An absent side reads as null. */
  datatype Entry = Entry(path: string, declared: Json, database: Json)

  /** Python's `type(a) is type(b)`. */
  predicate SameType(a: Json, b: Json) {
    match a
    case Null => b.Null?
    case Bool(_) => b.Bool?
    case Int(_) => b.Int?
    case Float(_) => b.Float?
    case Str(_) => b.Str?
    case Arr(_) => b.Arr?
    case Obj(_) => b.Obj?
  }

  function Here(path: string, declared: Json, database: Json): Entry {
    Entry(if path == "" then "/" else path, declared, database)
  }

  function Child(path: string, key: string): string {
    path + "/" + Escape(key)
  }

  function KeysOf(declared: Json, database: Json): seq<string>
    requires declared.Obj? && database.Obj?
  {
    Sorted(declared.fields.Keys + database.fields.Keys)
  }

  function Diff(declared: Json, database: Json, path: string): seq<Entry>
    decreases declared, 2, 0
  {
    if !SameType(declared, database) then [Here(path, declared, database)]
    else if declared.Obj? then DiffKeys(declared, database, path, KeysOf(declared, database))
    else if PyEq(declared, database) then []
    else [Here(path, declared, database)]
  }

  function DiffKeys(declared: Json, database: Json, path: string, keys: seq<string>): seq<Entry>
    requires declared.Obj? && database.Obj?
    decreases declared, 1, |keys|
  {
    if keys == [] then [] else DiffAt(declared, database, path, keys[0]) + DiffKeys(declared, database, path, keys[1..])
  }

  function DiffAt(declared: Json, database: Json, path: string, key: string): seq<Entry>
    requires declared.Obj? && database.Obj?
    decreases declared, 0, 0
  {
    if key in declared.fields && key in database.fields then
      Diff(declared.fields[key], database.fields[key], Child(path, key))
    else
      [Entry(Child(path, key), if key in declared.fields then declared.fields[key] else Null,
             if key in database.fields then database.fields[key] else Null)]
  }

  // ---- Where the differences are ----

  /** The key paths of the report, from the root. */
  function Places(declared: Json, database: Json): seq<seq<string>>
    decreases declared, 2, 0
  {
    if !SameType(declared, database) then [[]]
    else if declared.Obj? then PlacesUnder(declared, database, KeysOf(declared, database))
    else if PyEq(declared, database) then []
    else [[]]
  }

  function PlacesUnder(declared: Json, database: Json, keys: seq<string>): seq<seq<string>>
    requires declared.Obj? && database.Obj?
    decreases declared, 1, |keys|
  {
    if keys == [] then [] else PlacesAt(declared, database, keys[0]) + PlacesUnder(declared, database, keys[1..])
  }

  function PlacesAt(declared: Json, database: Json, key: string): seq<seq<string>>
    requires declared.Obj? && database.Obj?
    decreases declared, 0, 0
  {
    if key in declared.fields && key in database.fields
    then Under(key, Places(declared.fields[key], database.fields[key]))
    else [[key]]
  }

  function Under(key: string, places: seq<seq<string>>): seq<seq<string>> {
    seq(|places|, i requires 0 <= i < |places| => [key] + places[i])
  }

  /** What the report says of a place: its pointer and the values both sides have there. */
  function EntryAt(path: string, declared: Json, database: Json, parts: seq<string>): Entry {
    Entry(TextOf(path, parts), WalkOrNull(Some(declared), parts), WalkOrNull(Some(database), parts))
  }

  function TextOf(path: string, parts: seq<string>): string {
    if parts != [] then path + Pointer(parts) else if path == "" then "/" else path
  }

  function EntriesAt(path: string, declared: Json, database: Json, places: seq<seq<string>>): seq<Entry> {
    seq(|places|, i requires 0 <= i < |places| => EntryAt(path, declared, database, places[i]))
  }

  lemma TextUnder(path: string, key: string, parts: seq<string>)
    ensures TextOf(Child(path, key), parts) == TextOf(path, [key] + parts)
  {
    assert Escaped([key] + parts) == [Escape(key)] + Escaped(parts);
    assert Escaped([key] + parts)[1..] == Escaped(parts);
    if parts != [] {
      assert Joined(Escaped([key] + parts)) == Escape(key) + "/" + Joined(Escaped(parts));
      assert path + "/" + Escape(key) + Pointer(parts) == path + Pointer([key] + parts);
    } else {
      assert [key] + parts == [key];
      assert path + "/" + Escape(key) == path + Pointer([key]);
    }
  }

  lemma WalkUnder(n: Json, key: string, parts: seq<string>)
    ensures Lookup(Some(n), [key] + parts) == Lookup(Get(Some(n), key), parts)
  {
    assert ([key] + parts)[1..] == parts;
  }

  /** The entries of one key are those of its places. */
  lemma EntriesUnder(path: string, declared: Json, database: Json, key: string, places: seq<seq<string>>)
    requires declared.Obj? && database.Obj? && key in declared.fields && key in database.fields
    ensures EntriesAt(Child(path, key), declared.fields[key], database.fields[key], places)
         == EntriesAt(path, declared, database, Under(key, places))
  {
    forall i | 0 <= i < |places|
      ensures EntryAt(Child(path, key), declared.fields[key], database.fields[key], places[i])
           == EntryAt(path, declared, database, Under(key, places)[i])
    {
      TextUnder(path, key, places[i]);
      WalkUnder(declared, key, places[i]);
      WalkUnder(database, key, places[i]);
    }
  }

  lemma AbsentEntry(path: string, declared: Json, database: Json, key: string)
    requires declared.Obj? && database.Obj? && !(key in declared.fields && key in database.fields)
    ensures DiffAt(declared, database, path, key) == EntriesAt(path, declared, database, [[key]])
  {
    TextUnder(path, key, []);
    WalkUnder(declared, key, []);
    WalkUnder(database, key, []);
    assert [key] + [] == [key] && Child(path, key) != "";
  }

  lemma EntriesJoin(path: string, declared: Json, database: Json, a: seq<seq<string>>, b: seq<seq<string>>)
    ensures EntriesAt(path, declared, database, a + b)
         == EntriesAt(path, declared, database, a) + EntriesAt(path, declared, database, b)
  {
  }

  /** The report lists its places, each with its pointer and with what both sides really have there. */
  lemma {:induction false} DiffIsTruthful(declared: Json, database: Json, path: string)
    ensures Diff(declared, database, path) == EntriesAt(path, declared, database, Places(declared, database))
    decreases declared, 2, 0
  {
    if SameType(declared, database) && declared.Obj? {
      DiffKeysTruthful(declared, database, path, KeysOf(declared, database));
    }
  }

  lemma {:induction false} DiffKeysTruthful(declared: Json, database: Json, path: string, keys: seq<string>)
    requires declared.Obj? && database.Obj?
    ensures DiffKeys(declared, database, path, keys)
            == EntriesAt(path, declared, database, PlacesUnder(declared, database, keys))
    decreases declared, 1, |keys|
  {
    if keys != [] {
      DiffKeysTruthful(declared, database, path, keys[1..]);
      DiffAtTruthful(declared, database, path, keys[0]);
      EntriesJoin(path, declared, database, PlacesAt(declared, database, keys[0]),
                  PlacesUnder(declared, database, keys[1..]));
    }
  }

  lemma {:induction false} DiffAtTruthful(declared: Json, database: Json, path: string, key: string)
    requires declared.Obj? && database.Obj?
    ensures DiffAt(declared, database, path, key)
            == EntriesAt(path, declared, database, PlacesAt(declared, database, key))
    decreases declared, 0, 0
  {
    if key in declared.fields && key in database.fields {
      DiffIsTruthful(declared.fields[key], database.fields[key], Child(path, key));
      EntriesUnder(path, declared, database, key, Places(declared.fields[key], database.fields[key]));
    } else {
      AbsentEntry(path, declared, database, key);
    }
  }

  /** Places that start with the given key. */
  predicate AllUnder(key: string, places: seq<seq<string>>) {
    forall p :: p in places ==> p != [] && p[0] == key
  }

  /** No place is reported twice. */
  lemma {:induction false} PlacesDiffer(declared: Json, database: Json)
    ensures NoRepeats(Places(declared, database))
    ensures SameType(declared, database) && declared.Obj? ==> [] !in Places(declared, database)
    decreases declared, 2, 0
  {
    if SameType(declared, database) && declared.Obj? {
      PlacesUnderDiffer(declared, database, KeysOf(declared, database));
    }
  }

  lemma {:induction false} PlacesUnderDiffer(declared: Json, database: Json, keys: seq<string>)
    requires declared.Obj? && database.Obj? && StrictlySorted(keys)
    ensures NoRepeats(PlacesUnder(declared, database, keys))
    ensures forall p :: p in PlacesUnder(declared, database, keys) ==> p != [] && p[0] in keys
    decreases declared, 1, |keys|
  {
    if keys != [] {
      assert keys == [keys[0]] + keys[1..] && keys[0] !in keys[1..];
      PlacesUnderDiffer(declared, database, keys[1..]);
      PlacesAtDiffer(declared, database, keys[0]);
      FirstDiffers(PlacesAt(declared, database, keys[0]), PlacesUnder(declared, database, keys[1..]), keys[0]);
    }
  }

  lemma {:induction false} PlacesAtDiffer(declared: Json, database: Json, key: string)
    requires declared.Obj? && database.Obj?
    ensures NoRepeats(PlacesAt(declared, database, key)) && AllUnder(key, PlacesAt(declared, database, key))
    decreases declared, 0, 0
  {
    if key in declared.fields && key in database.fields {
      PlacesDiffer(declared.fields[key], database.fields[key]);
      UnderDiffers(key, Places(declared.fields[key], database.fields[key]));
    }
  }

  lemma UnderDiffers(key: string, places: seq<seq<string>>)
    requires NoRepeats(places)
    ensures NoRepeats(Under(key, places))
  {
    forall i, j | 0 <= i < j < |places| ensures Under(key, places)[i] != Under(key, places)[j] {
      assert ([key] + places[i])[1..] == places[i] && ([key] + places[j])[1..] == places[j];
    }
  }

  /** Places under one key and places under others have nothing in common. */
  lemma FirstDiffers(a: seq<seq<string>>, b: seq<seq<string>>, key: string)
    requires NoRepeats(a) && NoRepeats(b) && AllUnder(key, a)
    requires forall p :: p in b ==> p != [] && p[0] != key
    ensures NoRepeats(a + b)
  {
    forall i, j | 0 <= i < j < |a + b| ensures (a + b)[i] != (a + b)[j] {
      if i < |a| && j >= |a| { assert a[i] in a && b[j - |a|] in b; }
    }
  }

  function PathsOf(entries: seq<Entry>): seq<string> {
    seq(|entries|, i requires 0 <= i < |entries| => entries[i].path)
  }

  /** The pointers of a report are all different. */
  lemma PathsDiffer(declared: Json, database: Json)
    ensures NoRepeats(PathsOf(Diff(declared, database, "")))
  {
    var places := Places(declared, database);
    DiffIsTruthful(declared, database, "");
    PlacesDiffer(declared, database);
    if SameType(declared, database) && declared.Obj? {
      TextsDiffer(declared, database, places);
    } else {
      assert |places| <= 1;
    }
  }

  lemma TextsDiffer(declared: Json, database: Json, places: seq<seq<string>>)
    requires NoRepeats(places) && [] !in places
    ensures NoRepeats(PathsOf(EntriesAt("", declared, database, places)))
  {
    var paths := PathsOf(EntriesAt("", declared, database, places));
    forall i | 0 <= i < |places| ensures places[i] != [] && paths[i] == Pointer(places[i]) {
      assert places[i] in places;
    }
    forall i, j | 0 <= i < j < |places| ensures paths[i] != paths[j] {
      if Pointer(places[i]) == Pointer(places[j]) { PointersDiffer(places[i], places[j]); }
    }
  }

  // ---- Nothing to report ----

  /** A value up to what Python's `==` overlooks inside lists: `true`, `1` and `1.0` are one there. */
  function Loose(j: Json): Json {
    match j
    case Arr(_) => Norm(j)
    case Obj(fields) => Obj(map k | k in fields :: Loose(fields[k]))
    case _ => j
  }

  /** The report is empty exactly when the values are equal up to numbers inside lists. */
  lemma {:induction false} EmptyWhenEqual(declared: Json, database: Json, path: string)
    ensures Diff(declared, database, path) == [] <==> Loose(declared) == Loose(database)
    decreases declared, 2, 0
  {
    if SameType(declared, database) && declared.Obj? {
      EmptyKeysWhenEqual(declared, database, path, KeysOf(declared, database));
      ObjEqual(declared, database);
    }
  }

  /** The key is on both sides, with values that are equal up to numbers inside lists. */
  predicate AgreeAt(declared: Json, database: Json, key: string)
    requires declared.Obj? && database.Obj?
  {
    key in declared.fields && key in database.fields && Loose(declared.fields[key]) == Loose(database.fields[key])
  }

  lemma {:induction false} EmptyKeysWhenEqual(declared: Json, database: Json, path: string, keys: seq<string>)
    requires declared.Obj? && database.Obj?
    ensures DiffKeys(declared, database, path, keys) == [] <==> forall k :: k in keys ==> AgreeAt(declared, database, k)
    decreases declared, 1, |keys|
  {
    if keys != [] {
      assert keys == [keys[0]] + keys[1..];
      EmptyKeysWhenEqual(declared, database, path, keys[1..]);
      EmptyAtWhenEqual(declared, database, path, keys[0]);
    }
  }

  lemma {:induction false} EmptyAtWhenEqual(declared: Json, database: Json, path: string, key: string)
    requires declared.Obj? && database.Obj?
    ensures DiffAt(declared, database, path, key) == [] <==> AgreeAt(declared, database, key)
    decreases declared, 0, 0
  {
    if key in declared.fields && key in database.fields {
      EmptyWhenEqual(declared.fields[key], database.fields[key], Child(path, key));
    }
  }

  lemma LooseFields(j: Json)
    requires j.Obj?
    ensures Loose(j).Obj? && Loose(j).fields.Keys == j.fields.Keys
    ensures forall k :: k in j.fields ==> Loose(j).fields[k] == Loose(j.fields[k])
  {
  }

  lemma ObjEqual(a: Json, b: Json)
    requires a.Obj? && b.Obj?
    ensures Loose(a) == Loose(b) <==> forall k :: k in KeysOf(a, b) ==> AgreeAt(a, b, k)
  {
    LooseFields(a);
    LooseFields(b);
    if Loose(a) == Loose(b) {
      forall k | k in KeysOf(a, b) ensures AgreeAt(a, b, k) {
        assert k in Loose(a).fields && k in Loose(b).fields;
      }
    } else if forall k :: k in KeysOf(a, b) ==> AgreeAt(a, b, k) {
      EqualFields(a, b, Loose(a).fields, Loose(b).fields);
    }
  }

  lemma EqualFields(a: Json, b: Json, la: map<string, Json>, lb: map<string, Json>)
    requires a.Obj? && b.Obj? && la.Keys == a.fields.Keys && lb.Keys == b.fields.Keys
    requires forall k :: k in la ==> la[k] == Loose(a.fields[k])
    requires forall k :: k in lb ==> lb[k] == Loose(b.fields[k])
    requires forall k :: k in KeysOf(a, b) ==> AgreeAt(a, b, k)
    ensures la == lb
  {
    forall k ensures k in la <==> k in lb {
      if k in la || k in lb { assert k in KeysOf(a, b); }
    }
    forall k | k in la ensures la[k] == lb[k] { assert k in KeysOf(a, b); }
  }

  /** A list of `true` against a list of `1` goes unreported. */
  lemma BooleanInListGoesUnreported()
    ensures Arr([Bool(true)]) != Arr([Int(1)]) && Diff(Arr([Bool(true)]), Arr([Int(1)]), "") == []
  {
    assert Norm(Bool(true)) == Norm(Int(1));
    assert Norm(Arr([Bool(true)])).items == Norm(Arr([Int(1)])).items;
  }

  /** Values that Python compares as they are: no booleans and no floats. */
  predicate Exact(j: Json) {
    match j
    case Bool(_) => false
    case Float(_) => false
    case Arr(items) => forall i :: 0 <= i < |items| ==> Exact(items[i])
    case Obj(fields) => forall k :: k in fields ==> Exact(fields[k])
    case _ => true
  }

  /** Booleans and floats may stand anywhere but inside lists. */
  predicate ExactLists(j: Json) {
    match j
    case Arr(_) => Exact(j)
    case Obj(fields) => forall k :: k in fields ==> ExactLists(fields[k])
    case _ => true
  }

  lemma {:induction false} ExactNorm(a: Json, b: Json)
    requires Exact(a) && Exact(b) && Norm(a) == Norm(b)
    ensures a == b
    decreases a
  {
    match a {
      case Arr(items) => {
        var na, nb := Norm(a).items, Norm(b).items;
        forall i | 0 <= i < |items| ensures items[i] == b.items[i] {
          assert na[i] == nb[i];
          ExactNorm(items[i], b.items[i]);
        }
        assert items == b.items;
      }
      case Obj(fields) => {
        var na, nb := Norm(a).fields, Norm(b).fields;
        assert na.Keys == fields.Keys && nb.Keys == b.fields.Keys;
        forall k | k in fields ensures fields[k] == b.fields[k] {
          assert na[k] == nb[k];
          ExactNorm(fields[k], b.fields[k]);
        }
        assert fields == b.fields;
      }
      case _ =>
    }
  }

  lemma {:induction false} ExactLoose(a: Json, b: Json)
    requires ExactLists(a) && ExactLists(b) && Loose(a) == Loose(b)
    ensures a == b
    decreases a
  {
    match a {
      case Arr(_) => ExactNorm(a, b);
      case Obj(fields) => {
        LooseFields(a);
        LooseFields(b);
        forall k | k in fields ensures fields[k] == b.fields[k] {
          ExactLoose(fields[k], b.fields[k]);
        }
        assert fields == b.fields;
      }
      case _ =>
    }
  }

  /** Without booleans and floats inside lists, the report is empty exactly when the values are equal. */
  lemma EmptyExactlyWhenEqual(declared: Json, database: Json)
    requires ExactLists(declared) && ExactLists(database)
    ensures Diff(declared, database, "") == [] <==> declared == database
  {
    EmptyWhenEqual(declared, database, "");
    if Loose(declared) == Loose(database) { ExactLoose(declared, database); }
  }

  // ---- The other way round ----

  function Swapped(entries: seq<Entry>): seq<Entry> {
    seq(|entries|, i requires 0 <= i < |entries| =>
      Entry(entries[i].path, entries[i].database, entries[i].declared))
  }

  /** Comparing the other way round reports the same pointers, with the two sides exchanged. */
  lemma {:induction false} SwapSides(declared: Json, database: Json, path: string)
    ensures Diff(database, declared, path) == Swapped(Diff(declared, database, path))
    decreases declared, 2, 0
  {
    if SameType(declared, database) && declared.Obj? {
      assert declared.fields.Keys + database.fields.Keys == database.fields.Keys + declared.fields.Keys;
      SwapKeys(declared, database, path, KeysOf(declared, database));
    }
  }

  lemma {:induction false} SwapKeys(declared: Json, database: Json, path: string, keys: seq<string>)
    requires declared.Obj? && database.Obj?
    ensures DiffKeys(database, declared, path, keys) == Swapped(DiffKeys(declared, database, path, keys))
    decreases declared, 1, |keys|
  {
    if keys != [] {
      SwapKeys(declared, database, path, keys[1..]);
      SwapAt(declared, database, path, keys[0]);
    }
  }

  lemma {:induction false} SwapAt(declared: Json, database: Json, path: string, key: string)
    requires declared.Obj? && database.Obj?
    ensures DiffAt(database, declared, path, key) == Swapped(DiffAt(declared, database, path, key))
    decreases declared, 0, 0
  {
    if key in declared.fields && key in database.fields {
      SwapSides(declared.fields[key], database.fields[key], Child(path, key));
    }
  }
}
