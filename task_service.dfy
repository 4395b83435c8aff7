/**
 * The task service: `addTask` and `updateTask` read a project document,
 * change its task list, recompute its completion percentage and append one
 * activity entry, all in one write.
 */
module TaskService {
  import opened Wrappers
  import opened Types
  import opened Completion
  import opened DocumentStore
  import opened ProjectService

  /** What the add-task form hands over: the chosen fields of the new task. */
  datatype NewTaskData = NewTaskData(
    title: string,
    priority: Priority,
    status: Status,
    dueDate: Option<Instant>,
    assignee: Option<User>)

  /** The task `addTask` builds from `data` and a fresh id. */
  function NewTask(id: string, data: NewTaskData): (t: Task)
    ensures t.id == id && t.title == data.title && t.priority == data.priority
    ensures t.status == data.status && t.assignee == data.assignee
    ensures t.dueDate.None? <==> data.dueDate.None?
  {
    Task(id, data.title, data.status, data.priority, data.dueDate, data.assignee)
  }

  /** `createActivity(user, text)` with the fresh id and the current time supplied. */
  function CreateActivity(id: string, user: User, text: string, now: Instant): Activity
  {
    Activity(id, text, now, user)
  }

  /** The activity sentence of `addTask`. */
  function CreatedText(t: Task): (text: string)
    ensures t.assignee.None? ==> text == "created a new task: \"" + t.title + "\""
    ensures t.assignee.Some? ==>
      text == "created a new task: \"" + t.title + "\" and assigned it to " + t.assignee.value.name
  {
    var base := "created a new task: \"" + t.title + "\"";
    if t.assignee.Some? then base + " and assigned it to " + t.assignee.value.name else base
  }

  /** `task.assignee?.id`: the assignee's id, or nothing when unassigned. */
  function AssigneeId(t: Task): Option<string>
  {
    if t.assignee.Some? then Some(t.assignee.value.id) else None
  }

  /**
   * The activity sentence of `updateTask`, first rule that applies: a change of
   * assignee, then a change of status, then a generic update.
   */
  function UpdatedText(original: Task, updated: Task): string
  {
    var title := updated.title;
    if AssigneeId(original) != AssigneeId(updated) then
      if updated.assignee.Some? then "assigned task \"" + title + "\" to " + updated.assignee.value.name
      else "unassigned task \"" + title + "\""
    else if original.status != updated.status then
      "moved task \"" + title + "\" from " + StatusName(original.status) + " to " + StatusName(updated.status)
    else "updated task: \"" + title + "\""
  }

  /** A change of assignee wins over a simultaneous change of status. */
  lemma AssigneeChangeOverridesStatusMove(original: Task, updated: Task)
    requires original.status != updated.status
    requires AssigneeId(original) != AssigneeId(updated)
    ensures updated.assignee.Some? ==>
      UpdatedText(original, updated) == "assigned task \"" + updated.title + "\" to " + updated.assignee.value.name
    ensures updated.assignee.None? ==> UpdatedText(original, updated) == "unassigned task \"" + updated.title + "\""
  {
  }

  /** With the assignee kept, a status change reads as a move, and no change as a plain update. */
  lemma KeptAssigneeText(original: Task, updated: Task)
    requires AssigneeId(original) == AssigneeId(updated)
    ensures original.status != updated.status ==>
      UpdatedText(original, updated) == "moved task \"" + updated.title + "\" from "
        + StatusName(original.status) + " to " + StatusName(updated.status)
    ensures original.status == updated.status ==>
      UpdatedText(original, updated) == "updated task: \"" + updated.title + "\""
  {
  }

  /** `tasks.find(task => task.id === id)`: the first task with that id. */
  function FindById(tasks: seq<Task>, id: string): (r: Option<Task>)
    ensures r.Some? <==> exists i :: 0 <= i < |tasks| && tasks[i].id == id
    ensures r.Some? ==> r.value.id == id
    ensures r.Some? ==>
      exists i :: 0 <= i < |tasks| && tasks[i] == r.value && forall j :: 0 <= j < i ==> tasks[j].id != id
  {
    if tasks == [] then None
    else if tasks[0].id == id then Some(tasks[0])
    else
      var r := FindById(tasks[1..], id);
      assert forall i :: 1 <= i < |tasks| ==> tasks[i] == tasks[1..][i - 1];
      r
  }

  /** `tasks.map(task => task.id === updated.id ? updated : task)`. */
  function ReplaceById(tasks: seq<Task>, updated: Task): seq<Task>
  {
    seq(|tasks|, i requires 0 <= i < |tasks| => if tasks[i].id == updated.id then updated else tasks[i])
  }

  /** Every task with the id is replaced; the length and every other task keep their place. */
  lemma ReplaceByIdKeepsOthers(tasks: seq<Task>, updated: Task)
    ensures |ReplaceById(tasks, updated)| == |tasks|
    ensures forall i :: 0 <= i < |tasks| && tasks[i].id != updated.id ==> ReplaceById(tasks, updated)[i] == tasks[i]
    ensures forall i :: 0 <= i < |tasks| && tasks[i].id == updated.id ==> ReplaceById(tasks, updated)[i] == updated
    ensures FindById(tasks, updated.id).Some? ==> FindById(ReplaceById(tasks, updated), updated.id) == Some(updated)
  {
    var r := ReplaceById(tasks, updated);
    if FindById(tasks, updated.id).Some? {
      var i :| 0 <= i < |tasks| && tasks[i].id == updated.id;
      assert r[i].id == updated.id;
      var k :| 0 <= k < |r| && r[k] == FindById(r, updated.id).value && forall j :: 0 <= j < k ==> r[j].id != updated.id;
    }
  }

  /** With unique task ids, replacing by id is replacing the one task at its index. */
  lemma ReplaceByIdIsSingleUpdate(tasks: seq<Task>, i: nat, updated: Task)
    requires i < |tasks| && tasks[i].id == updated.id
    requires forall j :: 0 <= j < |tasks| && j != i ==> tasks[j].id != tasks[i].id
    ensures ReplaceById(tasks, updated) == tasks[i := updated]
  {
  }

  /** The document `addTask` writes. */
  function WithNewTask(doc: ProjectDoc, t: Task, a: Activity): ProjectDoc
  {
    doc.(tasks := ArrayUnion(doc.tasks, t),
         completionPercentage := CompletionPercentage(doc.tasks + [t]),
         activities := ArrayUnion(doc.activities, a))
  }

  /**
   * With fresh ids for the task and the activity, `addTask` appends exactly one
   * task and one activity, keeps everything before them, and stores the
   * percentage of the extended list.
   */
  lemma AddTaskAppendsOne(doc: ProjectDoc, t: Task, a: Activity)
    requires forall u :: u in doc.tasks ==> u.id != t.id
    requires forall b :: b in doc.activities ==> b.id != a.id
    ensures WithNewTask(doc, t, a).tasks == doc.tasks + [t]
    ensures WithNewTask(doc, t, a).activities == doc.activities + [a]
    ensures WithNewTask(doc, t, a).completionPercentage == CompletionPercentage(doc.tasks + [t])
    ensures WithNewTask(doc, t, a).(tasks := doc.tasks, activities := doc.activities,
                                    completionPercentage := doc.completionPercentage) == doc
  {
    assert t !in doc.tasks;
    assert a !in doc.activities;
  }

  /**
   * `addTask`: on a missing project (or a failed read or write) nothing is
   * written and the caller sees 'Failed to create task'.
   */
  method AddTask(db: ProjectCollection, projectId: string, data: NewTaskData, user: User,
                 taskId: string, activityId: string, now: Instant, storeFails: bool) returns (r: Outcome)
    modifies db
    ensures storeFails || projectId !in old(db.docs) ==>
      r == Fail("Failed to create task") && db.docs == old(db.docs)
    ensures !storeFails && projectId in old(db.docs) ==>
      var t := NewTask(taskId, data);
      r == Pass &&
      db.docs == old(db.docs)[projectId := WithNewTask(old(db.docs)[projectId], t,
                                                       CreateActivity(activityId, user, CreatedText(t), now))]
  {
    var newTask := NewTask(taskId, data);
    if storeFails || projectId !in db.docs {
      return Fail("Failed to create task");
    }
    var doc := db.docs[projectId];
    var newTasks := doc.tasks + [newTask];
    var percentage := CompletionPercentage(newTasks);
    var text := "created a new task: \"" + newTask.title + "\"";
    if newTask.assignee.Some? {
      text := text + " and assigned it to " + newTask.assignee.value.name;
    }
    var activity := CreateActivity(activityId, user, text, now);
    db.docs := db.docs[projectId := doc.(tasks := ArrayUnion(doc.tasks, newTask),
                                         completionPercentage := percentage,
                                         activities := ArrayUnion(doc.activities, activity))];
    r := Pass;
  }

  /** The document `updateTask` writes: the task list replaced wholesale. */
  function WithUpdatedTask(doc: ProjectDoc, updated: Task, a: Activity): ProjectDoc
  {
    var tasks := ReplaceById(doc.tasks, updated);
    doc.(tasks := tasks, completionPercentage := CompletionPercentage(tasks),
         activities := ArrayUnion(doc.activities, a))
  }

  /**
   * `updateTask`: fails with 'Failed to update task', writing nothing, when the
   * project or the task is missing (or a read or write fails).
   */
  method UpdateTask(db: ProjectCollection, projectId: string, updated: Task, user: User,
                    activityId: string, now: Instant, storeFails: bool) returns (r: Outcome)
    modifies db
    ensures r.Fail? <==>
      storeFails || projectId !in old(db.docs) || FindById(old(db.docs)[projectId].tasks, updated.id).None?
    ensures r.Fail? ==> r == Fail("Failed to update task") && db.docs == old(db.docs)
    ensures r.Pass? ==>
      var doc := old(db.docs)[projectId];
      var original := FindById(doc.tasks, updated.id).value;
      db.docs == old(db.docs)[projectId := WithUpdatedTask(doc, updated,
                                CreateActivity(activityId, user, UpdatedText(original, updated), now))]
  {
    if storeFails || projectId !in db.docs {
      return Fail("Failed to update task");
    }
    var doc := db.docs[projectId];
    var found := FindById(doc.tasks, updated.id);
    if found.None? {
      return Fail("Failed to update task");
    }
    var original := found.value;
    var text := "updated task: \"" + updated.title + "\"";
    if original.status != updated.status {
      text := "moved task \"" + updated.title + "\" from " + StatusName(original.status)
              + " to " + StatusName(updated.status);
    }
    if AssigneeId(original) != AssigneeId(updated) {
      if updated.assignee.Some? {
        text := "assigned task \"" + updated.title + "\" to " + updated.assignee.value.name;
      } else {
        text := "unassigned task \"" + updated.title + "\"";
      }
    }
    var activity := CreateActivity(activityId, user, text, now);
    var newTasks := ReplaceById(doc.tasks, updated);
    var percentage := CompletionPercentage(newTasks);
    db.docs := db.docs[projectId := doc.(tasks := newTasks, completionPercentage := percentage,
                                         activities := ArrayUnion(doc.activities, activity))];
    r := Pass;
  }

  /**
   * A successful update appends exactly one activity (its id fresh), keeps the
   * number of tasks, and stores the percentage of the new task list.
   */
  lemma UpdateTaskAppendsOneActivity(doc: ProjectDoc, updated: Task, a: Activity)
    requires forall b :: b in doc.activities ==> b.id != a.id
    ensures WithUpdatedTask(doc, updated, a).activities == doc.activities + [a]
    ensures |WithUpdatedTask(doc, updated, a).tasks| == |doc.tasks|
    ensures WithUpdatedTask(doc, updated, a).completionPercentage
            == CompletionPercentage(WithUpdatedTask(doc, updated, a).tasks)
  {
    assert a !in doc.activities;
  }
}
