/** The add-task dialog of a kanban column: defaults, schema and the data it sends to `addTask`. */
module AddTaskForm {
  import opened Wrappers
  import opened Types
  import opened Session
  import opened TaskFilters
  import TaskService

  /** The form's fields; there is no status field. */
  datatype AddValues = AddValues(title: string, priority: Priority, dueDate: Option<Instant>, assigneeId: Option<string>)

  /** The schema: `title` must be at least one character. */
  predicate ValidValues(v: AddValues)
  {
    |v.title| >= 1
  }

  const Defaults: AddValues := AddValues("", Medium, None, None)

  /** The empty default title fails the schema: the dialog cannot be submitted untouched. */
  lemma DefaultsAreRejected()
    ensures !ValidValues(Defaults)
    ensures Defaults.priority == Medium && Defaults.dueDate.None? && Defaults.assigneeId.None?
  {
  }

  /** What submitting the dialog leads to. */
  datatype AddOutcome = Invalid | SignInRequired | CallAddTask(data: TaskService.NewTaskData, actor: User)

  /** `onSubmit` of the dialog opened from the column of status `column`. */
  function SubmitAdd(column: Status, v: AddValues, members: seq<User>, user: Option<AuthUser>): (r: AddOutcome)
    ensures r.Invalid? <==> !ValidValues(v)
    ensures r.SignInRequired? <==> ValidValues(v) && user.None?
    ensures r.CallAddTask? ==>
      && r.data.status == column
      && r.data.title == v.title && r.data.priority == v.priority && r.data.dueDate == v.dueDate
      && r.data.assignee == ResolveAssignee(members, v.assigneeId)
      && r.actor == CurrentUser(user.value)
  {
    if !ValidValues(v) then Invalid
    else if user.None? then SignInRequired
    else
      CallAddTask(TaskService.NewTaskData(v.title, v.priority, column, v.dueDate, ResolveAssignee(members, v.assigneeId)),
                  CurrentUser(user.value))
  }

  /** The task created from a submission lands at the bottom of the column it was added from. */
  lemma NewTaskLandsInItsColumn(tasks: seq<Task>, column: Status, v: AddValues, members: seq<User>,
                                user: AuthUser, id: string)
    requires ValidValues(v)
    ensures var t := TaskService.NewTask(id, SubmitAdd(column, v, members, Some(user)).data);
      && WithStatus(tasks + [t], column) == WithStatus(tasks, column) + [t]
      && forall s :: s != column ==> WithStatus(tasks + [t], s) == WithStatus(tasks, s)
  {
    var t := TaskService.NewTask(id, SubmitAdd(column, v, members, Some(user)).data);
    assert (tasks + [t])[..|tasks|] == tasks;
  }
}
