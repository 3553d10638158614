/** The keyed templates in a plan: when a merged template can be listed again. */
module TemplateMerge {
  import opened Texts
  import opened JsonValues
  import opened Planner
  import opened PlanLog
  import opened KeyedTemplates

  // ---- A keyed template as a tree ----

  predicate IsTask(j: Json) {
    j.Obj? && ("sort_order" in j.fields ==> j.fields["sort_order"].Int?)
  }

  predicate AreTasks(tasks: map<string, Json>) {
    forall ref :: ref in tasks ==> IsTask(tasks[ref])
  }

  predicate IsConfig(j: Json) {
    j.Obj? && "tasks" in j.fields && j.fields["tasks"].Obj? && AreTasks(j.fields["tasks"].fields)
  }

  predicate IsTemplate(j: Json) {
    j.Obj? && ("config" in j.fields ==> IsConfig(j.fields["config"]))
  }

  /** The tasks by ref; none when there is no configuration. */
  function TasksIn(j: Json): map<string, Json>
    requires IsTemplate(j)
  {
    if "config" in j.fields then j.fields["config"].fields["tasks"].fields else map[]
  }

  function TaskOf(j: Json): Task
    requires IsTask(j)
  {
    Task(if "sort_order" in j.fields then Some(j.fields["sort_order"].i) else None, j.fields - {"sort_order"})
  }

  function TaskDict(tasks: map<string, Json>): Dict<Task>
    requires AreTasks(tasks)
  {
    var refs := Sorted(tasks.Keys);
    seq(|refs|, i requires 0 <= i < |refs| => (refs[i], TaskOf(tasks[refs[i]])))
  }

  function TemplateOf(j: Json): KeyedTemplates.Item<Dict<Task>>
    requires IsTemplate(j)
  {
    Item(j.fields - {"config"},
         if "config" in j.fields then Some(Config(j.fields["config"].fields - {"tasks"}, TaskDict(TasksIn(j))))
           else None)
  }

  predicate HasPlace(j: Json) {
    j.Obj? && "sort_order" in j.fields
  }

  predicate AllHavePlace(tasks: map<string, Json>) {
    forall ref :: ref in tasks ==> HasPlace(tasks[ref])
  }

  /** A template is listed again exactly when each of its tasks has its place. */
  lemma ListedExactly(j: Json)
    requires IsTemplate(j)
    ensures ToListedItem(TemplateOf(j)).Ok? <==> AllHavePlace(TasksIn(j))
  {
    var tasks := TasksIn(j);
    var refs, dict := Sorted(tasks.Keys), TaskDict(tasks);
    if Placed(dict) {
      forall ref | ref in tasks ensures HasPlace(tasks[ref]) {
        var i :| 0 <= i < |refs| && refs[i] == ref;
        assert dict[i].1.sortOrder.Some?;
      }
    }
  }

  // ---- Merging ----

  function TasksNode(b: Node): Node {
    Get(Get(b, "config"), "tasks")
  }

  /**
   A task declared without its place ends without one: it is new, or the operator's removal is overwritten, or
   the stored place is the one that was applied last, or is overwritten.
   */
  predicate LosesPlace(policy: Policy, d: Json, v: Node, b: Node) {
    && !HasPlace(d)
    && if v.None? then b.None? || policy == Overwrite
       else
         var last := Get(b, "sort_order");
         last.Some? && (policy == Overwrite || SameNode(last, Get(v, "sort_order")))
  }

  lemma NeverOperational(rel: seq<string>)
    ensures !IsOperational("templates", rel)
  {
  }

  lemma MergedTask(policy: Policy, d: Json, v: Json, b: Node, rel: seq<string>)
    requires IsTask(d) && IsTask(v) && HasPlace(v)
    ensures var m := MergeNode(policy, "templates", d, v, b, rel);
            IsTask(m) && (HasPlace(m) <==> !LosesPlace(policy, d, Some(v), b))
  {
    MergedGet(policy, "templates", d, v, b, rel, "sort_order");
    NeverOperational(rel + ["sort_order"]);
  }

  /** One key of the tasks. */
  lemma MergedTasksAt(policy: Policy, d: Json, v: Json, b: Node, rel: seq<string>, ref: string)
    requires d.Obj? && v.Obj? && AreTasks(d.fields) && AreTasks(v.fields) && AllHavePlace(v.fields)
    ensures var m := MergeField(policy, "templates", d, v, b, rel, ref);
            && (m.Some? ==> IsTask(m.value))
            && (m.Some? && !HasPlace(m.value) <==>
                ref in d.fields && LosesPlace(policy, d.fields[ref], Get(Some(v), ref), Get(b, ref)))
  {
    NeverOperational(rel + [ref]);
    if ref in d.fields && ref in v.fields {
      MergedTask(policy, d.fields[ref], v.fields[ref], Get(b, ref), rel + [ref]);
    }
  }

  lemma MergedTasks(policy: Policy, d: Json, v: Json, b: Node, rel: seq<string>)
    requires d.Obj? && v.Obj? && AreTasks(d.fields) && AreTasks(v.fields) && AllHavePlace(v.fields)
    ensures var m := MergeNode(policy, "templates", d, v, b, rel);
            && m.Obj? && AreTasks(m.fields)
            && (AllHavePlace(m.fields) <==>
                forall ref :: ref in d.fields ==> !LosesPlace(policy, d.fields[ref], Get(Some(v), ref), Get(b, ref)))
  {
    var m := MergeNode(policy, "templates", d, v, b, rel);
    MergedGet(policy, "templates", d, v, b, rel, "");
    forall ref ensures Get(Some(m), ref) == MergeField(policy, "templates", d, v, b, rel, ref) {
      MergedGet(policy, "templates", d, v, b, rel, ref);
    }
    forall ref ensures ref in m.fields ==> IsTask(m.fields[ref])
               ensures ref in m.fields && !HasPlace(m.fields[ref]) <==>
                       ref in d.fields && LosesPlace(policy, d.fields[ref], Get(Some(v), ref), Get(b, ref))
    {
      MergedTasksAt(policy, d, v, b, rel, ref);
      assert Get(Some(m), ref) == MergeField(policy, "templates", d, v, b, rel, ref);
    }
  }

  ghost predicate NonePlaceLost(policy: Policy, d: Json, v: Json, b: Node)
    requires IsTemplate(d) && IsTemplate(v)
  {
    forall ref :: ref in TasksIn(d) ==>
      !LosesPlace(policy, TasksIn(d)[ref], Get(Some(Obj(TasksIn(v))), ref), Get(TasksNode(b), ref))
  }

  lemma MergedConfig(policy: Policy, d: Json, v: Json, b: Node)
    requires IsTemplate(d) && IsTemplate(v) && "config" in d.fields && "config" in v.fields
    requires AllHavePlace(TasksIn(v))
    ensures var m := MergeNode(policy, "templates", d.fields["config"], v.fields["config"], Get(b, "config"),
                               ["config"]);
            IsConfig(m) && (AllHavePlace(m.fields["tasks"].fields) <==> NonePlaceLost(policy, d, v, b))
  {
    var dc, vc, bc := d.fields["config"], v.fields["config"], Get(b, "config");
    MergedGet(policy, "templates", dc, vc, bc, ["config"], "tasks");
    NeverOperational(["config"] + ["tasks"]);
    MergedTasks(policy, dc.fields["tasks"], vc.fields["tasks"], TasksNode(b), ["config"] + ["tasks"]);
    assert vc.fields["tasks"] == Obj(TasksIn(v));
  }

  /**
   A declared template merged over a stored one, whatever was applied last: the plan lists it again exactly when
   no task declared without its place loses the stored one.
   */
  lemma MergedIsListed(policy: Policy, d: Json, v: Json, b: Node)
    requires IsTemplate(d) && IsTemplate(v) && "config" in v.fields && AllHavePlace(TasksIn(v))
    ensures var m := MergeNode(policy, "templates", d, v, b, []);
            IsTemplate(m) && (ToListedItem(TemplateOf(m)).Ok? <==> NonePlaceLost(policy, d, v, b))
  {
    var m := MergeNode(policy, "templates", d, v, b, []);
    MergedGet(policy, "templates", d, v, b, [], "config");
    NeverOperational([] + ["config"]);
    assert [] + ["config"] == ["config"];
    if "config" in d.fields { MergedConfig(policy, d, v, b); }
    ListedExactly(m);
  }

  /** With every declared task in its place, no merge and no policy can make the plan fail. */
  lemma PlacedNeverFails(policy: Policy, d: Json, v: Json, b: Node)
    requires IsTemplate(d) && IsTemplate(v) && "config" in v.fields
    requires AllHavePlace(TasksIn(v)) && AllHavePlace(TasksIn(d))
    ensures var m := MergeNode(policy, "templates", d, v, b, []);
            IsTemplate(m) && ToListedItem(TemplateOf(m)).Ok?
  {
    MergedIsListed(policy, d, v, b);
  }

  /** A template with one task. */
  function OneTask(task: Json): Json {
    Obj(map["config" := Obj(map["tasks" := Obj(map["t" := task])])])
  }

  /** A descriptor that drops the place of a task it applied before: the plan fails under every policy. */
  lemma DroppedPlaceFails(policy: Policy, place: int)
    ensures var d, v := OneTask(Obj(map[])), OneTask(Obj(map["sort_order" := Int(place)]));
            var m := MergeNode(policy, "templates", d, v, Some(v), []);
            IsTemplate(d) && IsTemplate(v) && IsTemplate(m) && ToListedItem(TemplateOf(m)) == Err(NoSortOrder)
  {
    var d, v := OneTask(Obj(map[])), OneTask(Obj(map["sort_order" := Int(place)]));
    assert "t" in TasksIn(d) && TasksIn(v)["t"] == Obj(map["sort_order" := Int(place)]);
    assert Get(TasksNode(Some(v)), "t") == Some(TasksIn(v)["t"]);
    MergedIsListed(policy, d, v, Some(v));
  }
}
