/** The roadmap document and the task operations of the two roadmap pages:
    the append-on-unknown-id upsert of the original page, the
    no-op-on-unknown-id upsert of the enhanced page, and delete. Both pages
    share `generateTaskId` and delete verbatim. */
module RoadmapTasks {
  import opened Wrappers
  import TaskSlug

  /** A stored task. Tasks saved through the edit dialog also carry the id
      of the quarter they were edited in; the shipped tasks do not. */
  datatype Task = Task(id: string, title: string, description: string, category: string, progress: int,
                       quarterId: Option<string>)

  datatype Quarter = Quarter(id: string, name: string, tasks: seq<Task>)

  datatype Roadmap = Roadmap(lastUpdated: string, quarters: seq<Quarter>)

  /** The object the edit dialog hands to `saveTask` and `deleteTask`: a
      task being added has no id. */
  datatype TaskData = TaskData(id: Option<string>, title: string, description: string, category: string,
                               progress: int, quarterId: Option<string>)

  /** `taskData.id` is truthy: present and not the empty string. */
  predicate HasId(d: TaskData) {
    d.id.Some? && d.id.value != ""
  }

  /** `quarter.id === taskData.quarterId`. */
  predicate Targets(q: Quarter, quarterId: Option<string>) {
    quarterId == Some(q.id)
  }

  /** The task stored for the data under the given id (`{...taskData}` or
      `{...taskData, id}`). */
  function AsTask(d: TaskData, id: string): (t: Task)
    ensures t.id == id && t.title == d.title && t.description == d.description
    ensures t.category == d.category && t.progress == d.progress && t.quarterId == d.quarterId
  {
    Task(id, d.title, d.description, d.category, d.progress, d.quarterId)
  }

  /** `quarter.tasks.find(t => t.id === id)` finds something. */
  predicate Contains(q: Quarter, id: string) {
    exists k :: 0 <= k < |q.tasks| && q.tasks[k].id == id
  }

  /** Every task with the id becomes `t`, in place. */
  function ReplaceTasks(tasks: seq<Task>, id: string, t: Task): (r: seq<Task>)
    ensures |r| == |tasks|
    ensures forall k :: 0 <= k < |tasks| ==> r[k] == if tasks[k].id == id then t else tasks[k]
  {
    seq(|tasks|, k requires 0 <= k < |tasks| => if tasks[k].id == id then t else tasks[k])
  }

  /** The tasks whose id is not `id` (`undefined` matches no task), in
      order. */
  function RemoveTasks(tasks: seq<Task>, id: Option<string>): (r: seq<Task>)
    ensures |r| <= |tasks|
    ensures forall k :: 0 <= k < |r| ==> Some(r[k].id) != id
    ensures forall t :: t in r <==> t in tasks && Some(t.id) != id
  {
    if |tasks| == 0 then []
    else if Some(tasks[0].id) == id then RemoveTasks(tasks[1..], id)
    else [tasks[0]] + RemoveTasks(tasks[1..], id)
  }

  lemma {:induction false} RemoveTasksConcat(a: seq<Task>, b: seq<Task>, id: Option<string>)
    ensures RemoveTasks(a + b, id) == RemoveTasks(a, id) + RemoveTasks(b, id)
  {
    if |a| > 0 {
      assert (a + b)[0] == a[0];
      assert (a + b)[1..] == a[1..] + b;
      RemoveTasksConcat(a[1..], b, id);
      if Some(a[0].id) != id {
        assert [a[0]] + (RemoveTasks(a[1..], id) + RemoveTasks(b, id))
            == ([a[0]] + RemoveTasks(a[1..], id)) + RemoveTasks(b, id);
      }
    } else {
      assert a + b == b;
    }
  }

  lemma {:induction false} RemoveTasksNoMatch(tasks: seq<Task>, id: Option<string>)
    requires forall k :: 0 <= k < |tasks| ==> Some(tasks[k].id) != id
    ensures RemoveTasks(tasks, id) == tasks
  {
    if |tasks| > 0 {
      RemoveTasksNoMatch(tasks[1..], id);
    }
  }

  /** The new task of an append: the data under the id generated from its
      title, whatever id the data had. */
  function NewTask(d: TaskData): (t: Task)
    ensures t == AsTask(d, TaskSlug.GenerateTaskId(d.title))
    ensures TaskSlug.IsSlug(t.id)
  {
    AsTask(d, TaskSlug.GenerateTaskId(d.title))
  }

  /** The original page's upsert in one quarter: a truthy id found in the
      quarter replaces those tasks wholesale; anything else appends. */
  function UpsertUpdated(q: Quarter, d: TaskData): (r: Quarter)
    ensures r.id == q.id && r.name == q.name
    ensures HasId(d) && Contains(q, d.id.value) ==>
      && |r.tasks| == |q.tasks|
      && forall k :: 0 <= k < |q.tasks| ==>
           r.tasks[k] == if q.tasks[k].id == d.id.value then AsTask(d, d.id.value) else q.tasks[k]
    ensures !(HasId(d) && Contains(q, d.id.value)) ==> r.tasks == q.tasks + [NewTask(d)]
  {
    if HasId(d) && Contains(q, d.id.value) then q.(tasks := ReplaceTasks(q.tasks, d.id.value, AsTask(d, d.id.value)))
    else q.(tasks := q.tasks + [NewTask(d)])
  }

  /** The enhanced page's upsert in one quarter: a truthy id replaces the
      tasks with that id, if any; only data without a truthy id appends. */
  function UpsertEnhanced(q: Quarter, d: TaskData): (r: Quarter)
    ensures r.id == q.id && r.name == q.name
    ensures HasId(d) ==>
      && |r.tasks| == |q.tasks|
      && forall k :: 0 <= k < |q.tasks| ==>
           r.tasks[k] == if q.tasks[k].id == d.id.value then AsTask(d, d.id.value) else q.tasks[k]
    ensures !HasId(d) ==> r.tasks == q.tasks + [NewTask(d)]
  {
    if HasId(d) then q.(tasks := ReplaceTasks(q.tasks, d.id.value, AsTask(d, d.id.value)))
    else q.(tasks := q.tasks + [NewTask(d)])
  }

  /** `saveTask` of the original page (`RoadmapPageUpdated`), on the quarter
      list: every quarter with the data's quarter id is upserted. A known
      truthy id is replaced in place with the data as given; otherwise one
      task is appended under the generated id, with no collision check. Other
      quarters are unchanged. */
  function SaveTaskUpdated(qs: seq<Quarter>, d: TaskData): (r: seq<Quarter>)
    ensures |r| == |qs|
    ensures forall i :: 0 <= i < |qs| && !Targets(qs[i], d.quarterId) ==> r[i] == qs[i]
    ensures forall i :: 0 <= i < |qs| && Targets(qs[i], d.quarterId) ==>
      && r[i].id == qs[i].id && r[i].name == qs[i].name
      && (HasId(d) && Contains(qs[i], d.id.value) ==>
            && |r[i].tasks| == |qs[i].tasks|
            && forall k :: 0 <= k < |qs[i].tasks| ==>
                 r[i].tasks[k] == if qs[i].tasks[k].id == d.id.value then AsTask(d, d.id.value) else qs[i].tasks[k])
      && (!(HasId(d) && Contains(qs[i], d.id.value)) ==> r[i].tasks == qs[i].tasks + [NewTask(d)])
  {
    seq(|qs|, i requires 0 <= i < |qs| => if Targets(qs[i], d.quarterId) then UpsertUpdated(qs[i], d) else qs[i])
  }

  /** `saveTask` of the enhanced page (`RoadmapPageEnhanced`): a truthy id
      replaces matching tasks in place and, when none match, leaves the
      quarter as it was; only data without a truthy id appends a task under
      the generated id. Other quarters are unchanged. */
  function SaveTaskEnhanced(qs: seq<Quarter>, d: TaskData): (r: seq<Quarter>)
    ensures |r| == |qs|
    ensures forall i :: 0 <= i < |qs| && !Targets(qs[i], d.quarterId) ==> r[i] == qs[i]
    ensures forall i :: 0 <= i < |qs| && Targets(qs[i], d.quarterId) ==>
      && r[i].id == qs[i].id && r[i].name == qs[i].name
      && (HasId(d) ==>
            && |r[i].tasks| == |qs[i].tasks|
            && forall k :: 0 <= k < |qs[i].tasks| ==>
                 r[i].tasks[k] == if qs[i].tasks[k].id == d.id.value then AsTask(d, d.id.value) else qs[i].tasks[k])
      && (!HasId(d) ==> r[i].tasks == qs[i].tasks + [NewTask(d)])
  {
    seq(|qs|, i requires 0 <= i < |qs| => if Targets(qs[i], d.quarterId) then UpsertEnhanced(qs[i], d) else qs[i])
  }

  /** `deleteTask`: in every quarter with the given quarter id, every task
      with the given id is removed and the others keep their order; other
      quarters are unchanged. */
  function DeleteTask(qs: seq<Quarter>, quarterId: Option<string>, id: Option<string>): (r: seq<Quarter>)
    ensures |r| == |qs|
    ensures forall i :: 0 <= i < |qs| && !Targets(qs[i], quarterId) ==> r[i] == qs[i]
    ensures forall i :: 0 <= i < |qs| && Targets(qs[i], quarterId) ==>
      r[i] == qs[i].(tasks := RemoveTasks(qs[i].tasks, id))
  {
    seq(|qs|, i requires 0 <= i < |qs| => if Targets(qs[i], quarterId) then qs[i].(tasks := RemoveTasks(qs[i].tasks, id)) else qs[i])
  }

  // ---- how the two variants relate ----

  /** With a truthy id that no target quarter holds, the enhanced page
      changes nothing while the original page appends a task under the
      generated id to every target quarter. */
  lemma {:induction false} UnknownIdVariantsDiffer(qs: seq<Quarter>, d: TaskData)
    requires HasId(d)
    requires forall i :: 0 <= i < |qs| && Targets(qs[i], d.quarterId) ==> !Contains(qs[i], d.id.value)
    ensures SaveTaskEnhanced(qs, d) == qs
    ensures forall i :: 0 <= i < |qs| && Targets(qs[i], d.quarterId) ==>
              SaveTaskUpdated(qs, d)[i].tasks == qs[i].tasks + [NewTask(d)]
  {
    var r := SaveTaskEnhanced(qs, d);
    forall i | 0 <= i < |qs|
      ensures r[i] == qs[i]
    {
      if Targets(qs[i], d.quarterId) {
        assert forall k :: 0 <= k < |qs[i].tasks| ==> qs[i].tasks[k].id != d.id.value;
        assert r[i].tasks == qs[i].tasks;
      }
    }
  }

  /** The two variants agree when the data has no truthy id, and when every
      target quarter already holds the id. */
  lemma {:induction false} VariantsAgree(qs: seq<Quarter>, d: TaskData)
    requires !HasId(d) || forall i :: 0 <= i < |qs| && Targets(qs[i], d.quarterId) ==> Contains(qs[i], d.id.value)
    ensures SaveTaskUpdated(qs, d) == SaveTaskEnhanced(qs, d)
  {
    var u := SaveTaskUpdated(qs, d);
    var e := SaveTaskEnhanced(qs, d);
    forall i | 0 <= i < |qs|
      ensures u[i] == e[i]
    {
    }
  }

  /** Saving the same data with a known id twice is the same as saving it
      once (the enhanced page: with any truthy id). */
  lemma {:induction false} SaveKnownIdIdempotent(qs: seq<Quarter>, d: TaskData)
    requires HasId(d)
    ensures SaveTaskEnhanced(SaveTaskEnhanced(qs, d), d) == SaveTaskEnhanced(qs, d)
    ensures (forall i :: 0 <= i < |qs| && Targets(qs[i], d.quarterId) ==> Contains(qs[i], d.id.value)) ==>
              SaveTaskUpdated(SaveTaskUpdated(qs, d), d) == SaveTaskUpdated(qs, d)
  {
    var once := SaveTaskEnhanced(qs, d);
    var twice := SaveTaskEnhanced(once, d);
    forall i | 0 <= i < |qs|
      ensures twice[i] == once[i]
    {
      if Targets(qs[i], d.quarterId) {
        assert forall k :: 0 <= k < |once[i].tasks| ==> twice[i].tasks[k] == once[i].tasks[k];
      }
    }
    if forall i :: 0 <= i < |qs| && Targets(qs[i], d.quarterId) ==> Contains(qs[i], d.id.value) {
      VariantsAgree(qs, d);
      forall i | 0 <= i < |once| && Targets(once[i], d.quarterId)
        ensures Contains(once[i], d.id.value)
      {
        var k :| 0 <= k < |qs[i].tasks| && qs[i].tasks[k].id == d.id.value;
        assert once[i].tasks[k].id == d.id.value;
      }
      VariantsAgree(once, d);
    }
  }

  /** Deleting the task an append just created, by its generated id, undoes
      the append when no task of a target quarter already had that id. */
  lemma {:induction false} DeleteUndoesAppend(qs: seq<Quarter>, d: TaskData)
    requires !HasId(d)
    requires forall i, k :: 0 <= i < |qs| && Targets(qs[i], d.quarterId) && 0 <= k < |qs[i].tasks| ==>
               qs[i].tasks[k].id != TaskSlug.GenerateTaskId(d.title)
    ensures DeleteTask(SaveTaskUpdated(qs, d), d.quarterId, Some(TaskSlug.GenerateTaskId(d.title))) == qs
    ensures DeleteTask(SaveTaskEnhanced(qs, d), d.quarterId, Some(TaskSlug.GenerateTaskId(d.title))) == qs
  {
    var id := Some(TaskSlug.GenerateTaskId(d.title));
    VariantsAgree(qs, d);
    var saved := SaveTaskUpdated(qs, d);
    var r := DeleteTask(saved, d.quarterId, id);
    forall i | 0 <= i < |qs|
      ensures r[i] == qs[i]
    {
      if Targets(qs[i], d.quarterId) {
        RemoveTasksConcat(qs[i].tasks, [NewTask(d)], id);
        RemoveTasksNoMatch(qs[i].tasks, id);
        assert RemoveTasks([NewTask(d)], id) == [];
        assert r[i].tasks == qs[i].tasks;
      }
    }
  }

  /** Deleting twice is deleting once, and a quarter id no quarter has
      leaves the list unchanged. */
  lemma {:induction false} DeleteTaskProperties(qs: seq<Quarter>, quarterId: Option<string>, id: Option<string>)
    ensures DeleteTask(DeleteTask(qs, quarterId, id), quarterId, id) == DeleteTask(qs, quarterId, id)
    ensures (forall i :: 0 <= i < |qs| ==> !Targets(qs[i], quarterId)) ==> DeleteTask(qs, quarterId, id) == qs
  {
    var once := DeleteTask(qs, quarterId, id);
    forall i | 0 <= i < |qs| && Targets(qs[i], quarterId)
      ensures RemoveTasks(once[i].tasks, id) == once[i].tasks
    {
      RemoveTasksNoMatch(once[i].tasks, id);
    }
  }
}
