/** The edit-task dialog: its defaults, its schema and the task record it sends to `updateTask`. */
module EditTaskForm {
  import opened Wrappers
  import opened Types
  import opened Session

  /** The form's fields; status and priority are one of their enumerations by type. */
  datatype EditValues = EditValues(
    title: string,
    status: Status,
    priority: Priority,
    dueDate: Option<Instant>,
    assigneeId: Option<string>)

  /** The schema: `title` must be at least one character. */
  predicate ValidValues(v: EditValues)
  {
    |v.title| >= 1
  }

  /** The defaults the dialog opens with, read from the task being edited. */
  function EditDefaults(task: Task): (v: EditValues)
    ensures v.title == task.title && v.status == task.status && v.priority == task.priority
    ensures v.dueDate == task.dueDate
    ensures v.assigneeId.Some? <==> task.assignee.Some? && task.assignee.value.id != ""
    ensures v.assigneeId.Some? ==> v.assigneeId.value == task.assignee.value.id
  {
    EditValues(task.title, task.status, task.priority, task.dueDate,
               if task.assignee.Some? && task.assignee.value.id != "" then Some(task.assignee.value.id) else None)
  }

  /** `{ ...task, ...values, dueDate, assignee }`: the form's fields over the original task. */
  function UpdatedTask(task: Task, v: EditValues, members: seq<User>): (t: Task)
    ensures t.id == task.id
    ensures t.title == v.title && t.status == v.status && t.priority == v.priority
    ensures t.dueDate == v.dueDate
    ensures t.assignee == ResolveAssignee(members, v.assigneeId)
  {
    task.(title := v.title, status := v.status, priority := v.priority, dueDate := v.dueDate,
          assignee := ResolveAssignee(members, v.assigneeId))
  }

  /** What submitting the dialog leads to. */
  datatype EditOutcome = Invalid | SignInRequired | CallUpdateTask(task: Task, actor: User)

  /** `onSubmit`, after the schema has accepted or rejected the values. */
  function SubmitEdit(task: Task, v: EditValues, members: seq<User>, user: Option<AuthUser>): (r: EditOutcome)
    ensures r.Invalid? <==> !ValidValues(v)
    ensures r.SignInRequired? <==> ValidValues(v) && user.None?
    ensures r.CallUpdateTask? ==>
      && r.task.id == task.id
      && r.task == UpdatedTask(task, v, members)
      && r.actor == CurrentUser(user.value)
  {
    if !ValidValues(v) then Invalid
    else if user.None? then SignInRequired
    else CallUpdateTask(UpdatedTask(task, v, members), CurrentUser(user.value))
  }

  /**
   * Submitting the defaults unchanged sends the task back as it was, when
   * its title is non-empty and its assignee, if any, has a non-empty id and
   * is the first team member with that id.
   */
  lemma SubmittingDefaultsKeepsTask(task: Task, members: seq<User>, user: AuthUser)
    requires task.title != ""
    requires task.assignee.Some? ==>
      task.assignee.value.id != "" && FindMember(members, task.assignee.value.id) == task.assignee
    ensures SubmitEdit(task, EditDefaults(task), members, Some(user)) == CallUpdateTask(task, CurrentUser(user))
  {
  }

  /** An assignee who is not among the team members is dropped: the task is sent unassigned. */
  lemma UnknownAssigneeIsDropped(task: Task, v: EditValues, members: seq<User>, user: AuthUser)
    requires ValidValues(v) && v.assigneeId.Some?
    requires forall m :: m in members ==> m.id != v.assigneeId.value
    ensures SubmitEdit(task, v, members, Some(user)).task.assignee.None?
  {
  }
}
