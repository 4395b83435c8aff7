/**
 * The new-project dialog: its schema, and the initial tasks it builds from
 * the suggestions of the task generator before calling `addProject`.
 */
module AddProjectForm {
  import opened Wrappers
  import opened Types
  import opened Session
  import opened TaskFilters
  import opened Completion
  import ProjectService

  /** The form's fields; `deadline` is None until a date is picked. */
  datatype ProjectFormValues = ProjectFormValues(name: string, description: string, deadline: Option<Instant>)

  /** The schema: a non-empty name, a non-empty description and a deadline. */
  predicate ValidValues(v: ProjectFormValues)
  {
    |v.name| >= 1 && |v.description| >= 1 && v.deadline.Some?
  }

  /** One suggested task: a title and a priority. */
  datatype Suggestion = Suggestion(title: string, priority: Priority)

  /** `aiResult.tasks.map(...)`, with `ids[i]` the uuid drawn for the i-th suggestion. */
  function GeneratedTasks(suggestions: seq<Suggestion>, ids: seq<string>): (tasks: seq<Task>)
    requires |ids| == |suggestions|
    ensures |tasks| == |suggestions|
    ensures forall i :: 0 <= i < |tasks| ==>
      && tasks[i].id == ids[i]
      && tasks[i].title == suggestions[i].title && tasks[i].priority == suggestions[i].priority
      && tasks[i].status == ToDo && tasks[i].dueDate.None? && tasks[i].assignee.None?
  {
    seq(|suggestions|, i requires 0 <= i < |suggestions| =>
      Task(ids[i], suggestions[i].title, ToDo, suggestions[i].priority, None, None))
  }

  /** Fresh uuids give pairwise distinct task ids. */
  lemma GeneratedIdsAreDistinct(suggestions: seq<Suggestion>, ids: seq<string>)
    requires |ids| == |suggestions|
    requires forall i, j :: 0 <= i < j < |ids| ==> ids[i] != ids[j]
    ensures forall i, j :: 0 <= i < j < |suggestions| ==>
      GeneratedTasks(suggestions, ids)[i].id != GeneratedTasks(suggestions, ids)[j].id
  {
  }

  /** No generated task is done, so a new project reads back at 0% complete. */
  lemma {:induction false} GeneratedProjectStartsAtZero(suggestions: seq<Suggestion>, ids: seq<string>)
    requires |ids| == |suggestions|
    ensures Count(GeneratedTasks(suggestions, ids), Done) == 0
    ensures CompletionPercentage(GeneratedTasks(suggestions, ids)) == 0
  {
    var tasks := GeneratedTasks(suggestions, ids);
    assert forall t :: t in WithStatus(tasks, Done) ==> t in tasks && t.status == Done;
    if |WithStatus(tasks, Done)| > 0 {
      assert WithStatus(tasks, Done)[0] in WithStatus(tasks, Done);
    }
    NoneDoneIsZero(tasks);
  }

  /** What submitting the dialog leads to. */
  datatype ProjectOutcome =
    | Invalid
    | SignInRequired
    | GenerationFailed
    | CallAddProject(values: ProjectService.ProjectValues, tasks: seq<Task>, owner: User)

  /**
   * `onSubmit`; `suggestions` is the generator's answer, None when it fails,
   * and `ids` the uuids drawn for its tasks.
   */
  function SubmitProject(v: ProjectFormValues, user: Option<AuthUser>, suggestions: Option<seq<Suggestion>>,
                         ids: seq<string>): (r: ProjectOutcome)
    requires suggestions.Some? ==> |ids| == |suggestions.value|
    ensures r.Invalid? <==> !ValidValues(v)
    ensures r.SignInRequired? <==> ValidValues(v) && user.None?
    ensures r.GenerationFailed? <==> ValidValues(v) && user.Some? && suggestions.None?
    ensures r.CallAddProject? ==>
      && r.values == ProjectService.ProjectValues(v.name, v.description, v.deadline.value)
      && r.tasks == GeneratedTasks(suggestions.value, ids)
      && r.owner == CurrentUser(user.value)
  {
    if !ValidValues(v) then Invalid
    else if user.None? then SignInRequired
    else if suggestions.None? then GenerationFailed
    else
      CallAddProject(ProjectService.ProjectValues(v.name, v.description, v.deadline.value),
                     GeneratedTasks(suggestions.value, ids), CurrentUser(user.value))
  }
}
