/** Checklist templates as `{ref: item}` with their tasks as `{ref: task}`, and back to lists. */
module KeyedTemplates {
  import opened Texts
  import opened JsonValues

  /** A task without its `ref` and its place among the tasks. */
  datatype Task = Task(sortOrder: Option<int>, fields: map<string, Json>)

  /** An insertion-ordered dictionary. */
  type Dict<V> = seq<(string, V)>

  /** A configuration: its tasks, listed under `tasks` or not at all, and everything else. */
  datatype Config<T> = Config(fields: map<string, Json>, tasks: T)

  datatype Item<T> = Item(fields: map<string, Json>, config: Option<Config<T>>)

  /**
   In a descriptor tasks are a list that may be missing; in the keyed form always a dictionary. Both pair
   refs and tasks.
   */
  type Listed = seq<(string, Item<Option<seq<(string, Task)>>>)>
  type Keyed = Dict<Item<Dict<Task>>>

  function Refs<V>(xs: seq<(string, V)>): seq<string> {
    seq(|xs|, i requires 0 <= i < |xs| => xs[i].0)
  }

  /** `d[key] = value`: in the key's place, or at the end. */
  function Put<V>(d: Dict<V>, key: string, value: V): Dict<V> {
    if d == [] then [(key, value)]
    else if d[0].0 == key then [(key, value)] + d[1..]
    else [d[0]] + Put(d[1..], key, value)
  }

  /** The dictionary that a list of pairs makes. */
  function DictOf<V>(xs: seq<(string, V)>): Dict<V> {
    if xs == [] then [] else Put(DictOf(xs[..|xs| - 1]), xs[|xs| - 1].0, xs[|xs| - 1].1)
  }

  lemma {:induction false} PutNew<V>(d: Dict<V>, key: string, value: V)
    ensures key !in Refs(d) ==> Put(d, key, value) == d + [(key, value)]
    ensures key in Refs(d) ==> |Put(d, key, value)| == |d|
    decreases |d|
  {
    if d != [] {
      assert Refs(d) == [d[0].0] + Refs(d[1..]);
      if d[0].0 != key { PutNew(d[1..], key, value); }
    }
  }

  /** Distinct keys make a dictionary that is the list itself; a repeated key makes a shorter one. */
  lemma {:induction false} DictOfList<V>(xs: seq<(string, V)>)
    ensures NoRepeats(Refs(xs)) ==> DictOf(xs) == xs
    ensures |DictOf(xs)| <= |xs| && (|DictOf(xs)| == |xs| ==> NoRepeats(Refs(xs)))
    decreases |xs|
  {
    if xs != [] {
      var init, last := xs[..|xs| - 1], xs[|xs| - 1];
      assert Refs(xs) == Refs(init) + [last.0] && xs == init + [last];
      assert forall i :: 0 <= i < |init| ==> Refs(init)[i] == Refs(xs)[i];
      DictOfList(init);
      PutNew(DictOf(init), last.0, last.1);
      if NoRepeats(Refs(init)) && last.0 in Refs(init) {
        var i :| 0 <= i < |init| && Refs(init)[i] == last.0;
        assert Refs(xs)[i] == Refs(xs)[|init|];
      }
    }
  }

  // ---- Keyed and back ----

  function KeyedItem(x: Item<Option<seq<(string, Task)>>>): Item<Dict<Task>> {
    match x.config
    case None => Item(x.fields, None)
    case Some(c) => Item(x.fields, Some(Config(c.fields, DictOf(if c.tasks.Some? then c.tasks.value else []))))
  }

  function KeyedItems(xs: Listed): seq<(string, Item<Dict<Task>>)> {
    seq(|xs|, i requires 0 <= i < |xs| => (xs[i].0, KeyedItem(xs[i].1)))
  }

  function ToKeyed(xs: Listed): Keyed {
    DictOf(KeyedItems(xs))
  }

  /** The order of tasks: by `sort_order`, then by ref. */
  predicate TaskLe(a: (string, Task), b: (string, Task)) {
    a.1.sortOrder.Some? && b.1.sortOrder.Some?
    && (a.1.sortOrder.value < b.1.sortOrder.value
        || (a.1.sortOrder.value == b.1.sortOrder.value && StrLe(a.0, b.0)))
  }

  predicate Placed(tasks: seq<(string, Task)>) {
    forall i :: 0 <= i < |tasks| ==> tasks[i].1.sortOrder.Some?
  }

  function Insert(t: (string, Task), sorted: seq<(string, Task)>): seq<(string, Task)> {
    if sorted == [] then [t] else if TaskLe(t, sorted[0]) then [t] + sorted else [sorted[0]] + Insert(t, sorted[1..])
  }

  function SortTasks(tasks: seq<(string, Task)>): seq<(string, Task)> {
    if tasks == [] then [] else Insert(tasks[0], SortTasks(tasks[1..]))
  }

  datatype Missing = NoSortOrder

  function ToListedItem(x: Item<Dict<Task>>): Result<Item<Option<seq<(string, Task)>>>, Missing> {
    match x.config
    case None => Ok(Item(x.fields, None))
    case Some(c) =>
      if Placed(c.tasks) then Ok(Item(x.fields, Some(Config(c.fields, Some(SortTasks(c.tasks)))))) else Err(NoSortOrder)
  }

  function ToListed(d: Keyed): Result<Listed, Missing> {
    if d == [] then Ok([])
    else match (ToListed(d[..|d| - 1]), ToListedItem(d[|d| - 1].1))
    case (Ok(rest), Ok(x)) => Ok(rest + [(d[|d| - 1].0, x)])
    case _ => Err(NoSortOrder)
  }

  // ---- The loops ----

  method Key(items: Listed) returns (keyed: Keyed)
    ensures keyed == ToKeyed(items)
  {
    keyed := [];
    for i := 0 to |items|
      invariant keyed == DictOf(KeyedItems(items)[..i])
    {
      var ref, item := items[i].0, items[i].1;
      var tasks: Dict<Task> := [];
      if item.config.Some? && item.config.value.tasks.Some? {
        var listed := item.config.value.tasks.value;
        for k := 0 to |listed|
          invariant tasks == DictOf(listed[..k])
        {
          assert listed[..k + 1][..k] == listed[..k];
          tasks := Put(tasks, listed[k].0, listed[k].1);
        }
        assert listed[..|listed|] == listed;
      }
      var body := Item(item.fields, if item.config.Some? then Some(Config(item.config.value.fields, tasks)) else None);
      assert KeyedItems(items)[..i + 1][..i] == KeyedItems(items)[..i];
      keyed := Put(keyed, ref, body);
    }
    assert KeyedItems(items)[..|items|] == KeyedItems(items);
  }

  method Unkey(keyed: Keyed) returns (result: Result<Listed, Missing>)
    ensures result == ToListed(keyed)
  {
    var items: Listed := [];
    for i := 0 to |keyed|
      invariant ToListed(keyed[..i]) == Ok(items)
    {
      assert keyed[..i + 1][..i] == keyed[..i];
      var listed := ToListedItem(keyed[i].1);
      if listed.Err? {
        FailsLater(keyed, i + 1);
        return Err(NoSortOrder);
      }
      items := items + [(keyed[i].0, listed.value)];
    }
    assert keyed[..|keyed|] == keyed;
    return Ok(items);
  }

  lemma {:induction false} FailsLater(d: Keyed, i: nat)
    requires i <= |d| && ToListed(d[..i]) == Err(NoSortOrder)
    ensures ToListed(d) == Err(NoSortOrder)
    decreases |d| - i
  {
    if i == |d| {
      assert d[..i] == d;
    } else {
      assert d[..i + 1][..i] == d[..i];
      FailsLater(d, i + 1);
    }
  }

  // ---- Sorting ----

  predicate Ordered(tasks: seq<(string, Task)>) {
    forall i, j :: 0 <= i < j < |tasks| ==> TaskLe(tasks[i], tasks[j])
  }

  lemma TaskLeTotal(a: (string, Task), b: (string, Task))
    requires a.1.sortOrder.Some? && b.1.sortOrder.Some?
    ensures TaskLe(a, b) || TaskLe(b, a)
  {
    StrLeTotal(a.0, b.0);
  }

  lemma TaskLeTransitive(a: (string, Task), b: (string, Task), c: (string, Task))
    requires TaskLe(a, b) && TaskLe(b, c)
    ensures TaskLe(a, c)
  {
    if a.1.sortOrder == b.1.sortOrder == c.1.sortOrder { StrLeTransitive(a.0, b.0, c.0); }
  }

  lemma {:induction false} InsertSorts(t: (string, Task), sorted: seq<(string, Task)>)
    requires t.1.sortOrder.Some? && Placed(sorted) && Ordered(sorted)
    ensures multiset(Insert(t, sorted)) == multiset([t] + sorted) && Ordered(Insert(t, sorted))
    decreases |sorted|
  {
    if sorted != [] {
      var first, rest := sorted[0], sorted[1..];
      assert sorted == [first] + rest;
      if TaskLe(t, first) {
        InFrontOfOrdered(t, sorted);
      } else {
        InsertSorts(t, rest);
        TaskLeTotal(t, first);
        InFrontOf(first, Insert(t, rest), [t] + rest);
      }
    }
  }

  lemma InFrontOfOrdered(t: (string, Task), sorted: seq<(string, Task)>)
    requires sorted != [] && TaskLe(t, sorted[0]) && Ordered(sorted)
    ensures Ordered([t] + sorted)
  {
    forall i | 0 <= i < |sorted| ensures TaskLe(t, sorted[i]) {
      if i > 0 { TaskLeTransitive(t, sorted[0], sorted[i]); }
    }
  }

  /** An element below all of a collection stands below all of any arrangement of it. */
  lemma InFrontOf(first: (string, Task), arranged: seq<(string, Task)>, tasks: seq<(string, Task)>)
    requires multiset(arranged) == multiset(tasks) && Ordered(arranged)
    requires forall x :: x in tasks ==> TaskLe(first, x)
    ensures Ordered([first] + arranged)
  {
    forall j | 0 <= j < |arranged| ensures TaskLe(first, arranged[j]) {
      assert arranged[j] in multiset(arranged);
      assert arranged[j] in multiset(tasks);
    }
  }

  /** Sorting keeps the tasks and puts them in order. */
  lemma {:induction false} SortTasksSorts(tasks: seq<(string, Task)>)
    requires Placed(tasks)
    ensures multiset(SortTasks(tasks)) == multiset(tasks) && Ordered(SortTasks(tasks))
    decreases |tasks|
  {
    if tasks != [] {
      var rest := tasks[1..];
      assert tasks == [tasks[0]] + rest;
      SortTasksSorts(rest);
      InsertSorts(tasks[0], SortTasks(rest));
    }
  }

  /** Tasks in order stay as they are. */
  lemma {:induction false} SortedStays(tasks: seq<(string, Task)>)
    requires Ordered(tasks)
    ensures SortTasks(tasks) == tasks
    decreases |tasks|
  {
    if tasks != [] {
      SortedStays(tasks[1..]);
      assert tasks == [tasks[0]] + tasks[1..];
      if |tasks| > 1 { assert TaskLe(tasks[0], tasks[1]); }
    }
  }

  // ---- The round trip ----

  /** The item with its tasks in order; a configuration without tasks gets an empty list. */
  function Settled(x: Item<Option<seq<(string, Task)>>>): Item<Option<seq<(string, Task)>>> {
    match x.config
    case None => x
    case Some(c) => Item(x.fields, Some(Config(c.fields, Some(SortTasks(TasksOf(x))))))
  }

  function TasksOf(x: Item<Option<seq<(string, Task)>>>): seq<(string, Task)> {
    if x.config.Some? && x.config.value.tasks.Some? then x.config.value.tasks.value else []
  }

  function SettledAll(xs: Listed): Listed {
    seq(|xs|, i requires 0 <= i < |xs| => (xs[i].0, Settled(xs[i].1)))
  }

  predicate AllPlaced(xs: Listed) {
    forall i :: 0 <= i < |xs| ==> Placed(TasksOf(xs[i].1))
  }

  /** No template ref is repeated, and no task ref within a template. */
  predicate UniqueRefs(xs: Listed) {
    NoRepeats(Refs(xs)) && forall i :: 0 <= i < |xs| ==> NoRepeats(Refs(TasksOf(xs[i].1)))
  }

  lemma ItemRoundTrip(x: Item<Option<seq<(string, Task)>>>)
    requires NoRepeats(Refs(TasksOf(x)))
    ensures ToListedItem(KeyedItem(x)) == if Placed(TasksOf(x)) then Ok(Settled(x)) else Err(NoSortOrder)
  {
    DictOfList(TasksOf(x));
  }

  lemma {:induction false} ItemsRoundTrip(xs: Listed)
    requires forall i :: 0 <= i < |xs| ==> NoRepeats(Refs(TasksOf(xs[i].1)))
    ensures ToListed(KeyedItems(xs)) == if AllPlaced(xs) then Ok(SettledAll(xs)) else Err(NoSortOrder)
    decreases |xs|
  {
    if xs != [] {
      var init, last := xs[..|xs| - 1], xs[|xs| - 1];
      ItemsRoundTrip(init);
      ItemRoundTrip(last.1);
      LastSettled(xs);
      assert xs == init + [last];
    } else {
      assert KeyedItems(xs) == [] && SettledAll(xs) == [];
    }
  }

  lemma LastSettled(xs: Listed)
    requires xs != []
    ensures var init, last := xs[..|xs| - 1], xs[|xs| - 1];
            && KeyedItems(xs) == KeyedItems(init) + [(last.0, KeyedItem(last.1))]
            && KeyedItems(xs)[..|xs| - 1] == KeyedItems(init)
            && (AllPlaced(xs) <==> AllPlaced(init) && Placed(TasksOf(last.1)))
            && SettledAll(xs) == SettledAll(init) + [(last.0, Settled(last.1))]
  {
    var init := xs[..|xs| - 1];
    assert forall i :: 0 <= i < |init| ==> init[i] == xs[i];
  }

  /** Keyed and back: the same templates with their tasks in order, or the failure of a task without a place. */
  lemma RoundTrip(xs: Listed)
    requires UniqueRefs(xs)
    ensures ToListed(ToKeyed(xs)) == if AllPlaced(xs) then Ok(SettledAll(xs)) else Err(NoSortOrder)
  {
    assert Refs(KeyedItems(xs)) == Refs(xs);
    DictOfList(KeyedItems(xs));
    ItemsRoundTrip(xs);
  }

  /**
   What the database projection emits comes back unchanged: unique refs, and every configuration with its
   tasks in order.
   */
  lemma ProjectionComesBack(xs: Listed)
    requires UniqueRefs(xs) && AllPlaced(xs)
    requires forall i :: 0 <= i < |xs| && xs[i].1.config.Some? ==>
               xs[i].1.config.value.tasks.Some? && Ordered(TasksOf(xs[i].1))
    ensures ToListed(ToKeyed(xs)) == Ok(xs)
  {
    RoundTrip(xs);
    forall i | 0 <= i < |xs| ensures Settled(xs[i].1) == xs[i].1 {
      if xs[i].1.config.Some? { SortedStays(TasksOf(xs[i].1)); }
    }
    assert SettledAll(xs) == xs;
  }

  lemma {:induction false} ToListedShape(d: Keyed)
    ensures ToListed(d).Ok? ==> |ToListed(d).value| == |d|
    ensures ToListed(d).Ok? ==> forall i :: 0 <= i < |d| ==> ToListedItem(d[i].1) == Ok(ToListed(d).value[i].1)
    decreases |d|
  {
    if d != [] { ToListedShape(d[..|d| - 1]); }
  }

  lemma {:induction false} SortTasksLength(tasks: seq<(string, Task)>)
    ensures |SortTasks(tasks)| == |tasks|
    decreases |tasks|
  {
    if tasks != [] {
      SortTasksLength(tasks[1..]);
      InsertLength(tasks[0], SortTasks(tasks[1..]));
    }
  }

  lemma {:induction false} InsertLength(t: (string, Task), sorted: seq<(string, Task)>)
    ensures |Insert(t, sorted)| == |sorted| + 1
    decreases |sorted|
  {
    if sorted != [] { InsertLength(t, sorted[1..]); }
  }

  /**
   A repeated ref always loses something: templates whose tasks all have a place come back only when refs
   are unique.
   */
  lemma RoundTripNeedsUniqueRefs(xs: Listed)
    requires AllPlaced(xs)
    ensures ToListed(ToKeyed(xs)) == Ok(SettledAll(xs)) <==> UniqueRefs(xs)
  {
    if UniqueRefs(xs) {
      RoundTrip(xs);
    } else if ToListed(ToKeyed(xs)) == Ok(SettledAll(xs)) {
      ToListedShape(ToKeyed(xs));
      DictOfList(KeyedItems(xs));
      assert Refs(KeyedItems(xs)) == Refs(xs);
      forall i | 0 <= i < |xs| ensures NoRepeats(Refs(TasksOf(xs[i].1))) {
        assert ToKeyed(xs)[i].1 == KeyedItem(xs[i].1);
        ItemKeepsTasks(xs[i].1);
      }
    }
  }

  lemma ItemKeepsTasks(x: Item<Option<seq<(string, Task)>>>)
    requires ToListedItem(KeyedItem(x)) == Ok(Settled(x))
    ensures NoRepeats(Refs(TasksOf(x)))
  {
    DictOfList(TasksOf(x));
    SortTasksLength(TasksOf(x));
    if x.config.Some? { SortTasksLength(DictOf(TasksOf(x))); }
  }
}
