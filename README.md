# TaskPilot core, modelled in Dafny

TaskPilot is a project-management web application. Projects hold tasks, an
activity log and uploaded files. The data lives in a document database, in
two collections: `projects` and `users`. This project models the logic the
application builds on top of that store:

- **Services.** The services read and write the two collections:
  - the task service appends or replaces tasks, recomputes a project's
    completion percentage and appends one activity entry per change;
  - the project service creates, reads, updates and deletes project
    documents and records uploaded files;
  - the user service fills the user directory by invitation and on sign-in.
- **Components.** The computations inside the user-interface components:
  - the Kanban board's columns, team-member list and drag-and-drop rule;
  - what the edit-task, add-task and add-project forms submit;
  - the dashboard and analytics charts' status counts;
  - the recent-activity feed;
  - the header's breadcrumbs and search shortcut;
  - the sidebar's active-item rule;
  - the file list's icons and upload flag;
  - the welcome greeting.

The collections are classes whose map field the service methods update in
place:

- `ProjectService.ProjectCollection` holds the `projects` collection;
- `UserService.UserCollection` holds the `users` collection.

Each failure of a database, storage or network call is a `storeFails` (or
`uploadSucceeds`) parameter. Generated ids and the current time are
parameters too. Every computation is a function, with one exception: where
the source updates a variable in a loop, the model is a method with a loop,
proved against a specification function. Those methods are:

- `CountStatuses`, for the chart counters;
- `TeamMembers`, for the `Map` of team members;
- `ToPlainObject`, for the `for...in` copy;
- `GetProjects` and `GetUsers`, for the collection scans.

Modules:

| Module | File | Covers |
|---|---|---|
| `Wrappers` | wrappers.dfy | `Option`, `Result`, `Outcome` |
| `Types` | types.dfy | the entity types of `src/types/index.ts`, the status names, JavaScript truthiness of optional strings |
| `Strings` | strings.dfy | the string operations the source uses: `split`, `join`, `filter(Boolean)`, `startsWith`, `includes`, `toLowerCase`, `replace(/-/g, ' ')` |
| `TaskFilters` | task_filters.dfy | `tasks.filter(t => t.status === s)` and its length |
| `Completion` | completion.dfy | `calculateCompletionPercentage` |
| `DocumentStore` | document_store.dfy | `arrayUnion` |
| `PlainObject` | plain_object.dfy | `toPlainObject` |
| `ProjectService` | project_service.dfy | src/services/project-service.ts |
| `TaskService` | task_service.dfy | src/services/task-service.ts |
| `UserService` | user_service.dfy | src/services/user-service.ts |
| `Session` | session.dfy | the acting user and the assignee the forms and the board build |
| `KanbanView` | kanban_view.dfy | src/components/projects/kanban-view.tsx |
| `EditTaskForm`, `AddTaskForm`, `AddProjectForm` | edit_task_form.dfy, add_task_form.dfy, add_project_form.dfy | the three forms' `onSubmit` |
| `StatusCounts` | status_counts.dfy | the status counting both pie charts share |
| `TaskOverviewChart`, `TaskStatusBreakdown`, `TaskDistributionChart` | task_overview_chart.dfy, task_status_breakdown.dfy, task_distribution_chart.dfy | the three charts |
| `RecentActivity` | recent_activity.dfy | the activity feed |
| `AppHeader`, `AppSidebar` | app_header.dfy, app_sidebar.dfy | the layout |
| `ProjectFiles` | project_files.dfy | the file list |
| `WelcomeHeader` | welcome_header.dfy | the greeting |

In two places the code does something other than the behaviour its names
suggest. The model follows the code in both:

- One might expect a status move to take precedence in `updateTask`'s
  activity text. In the code, a change of assignee is tested last, so it
  overrides a move.
- One might expect `addProject` to store the computed percentage. The code
  stores 0, and every read recomputes it.

## Model

| member | source | states |
|---|---|---|
| Types.ParseStatus | src/types/index.ts:12 | a drop-target id is a status exactly when it is one of the four status names, and it names that status |
| Completion.CompletionPercentage | src/services/task-service.ts:20-26 | 0 for no tasks; otherwise the round-half-up of 100·done/total; never above 100 |
| Completion.RoundingIsUnique | src/services/task-service.ts:25 | at most one integer is the rounded percentage |
| Completion.AllDoneIsHundred | src/services/task-service.ts:20-26 | every task Done gives 100 |
| Completion.NoneDoneIsZero | src/services/task-service.ts:20-26 | no task Done gives 0 |
| Completion.RoundingMonotone | src/services/task-service.ts:25 | more tasks done out of the same total never gives a smaller rounded value |
| Completion.MarkingDoneNeverLowers | src/services/project-service.ts:13-19 | marking one task Done never lowers the percentage |
| Completion.TwoOfThreeThenTwoOfFour | src/services/project-service.ts:13-19 | 2 of 3 done rounds 66.67 up to 67; 2 of 4 is 50 |
| TaskFilters.WithStatusAppend | src/components/projects/kanban-view.tsx:155-162 | filtering by status distributes over concatenation |
| TaskFilters.CountPartition | src/components/analytics/task-distribution-chart.tsx:14-16 | the four status counts add up to the number of tasks |
| TaskFilters.CountUpdate | src/services/task-service.ts:125-127 | replacing one task changes each status count by the old and new task's contribution only |
| DocumentStore.ArrayUnion | src/services/project-service.ts:140 | the element is present afterwards; it is appended at the end exactly when no equal element was there; nothing else changes |
| DocumentStore.ArrayUnionIdempotent | src/services/task-service.ts:80-84 | a second union with the same element changes nothing |
| PlainObject.Plain | src/services/project-service.ts:22-37 | `toPlainObject` as a recursive definition: a Timestamp becomes its ISO text, arrays and objects are converted element by element; PlainHasNoTimestamp, PlainKeepsShape, PlainIsIdentityWithoutTimestamps and PlainIdempotent state it |
| PlainObject.PlainHasNoTimestamp | src/services/project-service.ts:22-37 | the result holds no Timestamp anywhere |
| PlainObject.PlainKeepsShape | src/services/project-service.ts:22-37 | arrays keep length and order, objects keep their keys in order, a Timestamp becomes its ISO text, other scalars stay |
| PlainObject.PlainIsIdentityWithoutTimestamps | src/services/project-service.ts:22-37 | a value without Timestamps comes back unchanged |
| PlainObject.PlainIdempotent | src/services/project-service.ts:22-37 | normalising twice equals normalising once |
| PlainObject.ToPlainObject | src/services/project-service.ts:22-37 | the loop that copies the object's fields computes the normalised value |
| ProjectService.ReadProject | src/services/project-service.ts:67-71 | the project a read returns: the document's id and fields with the percentage recomputed from its tasks; ReadIgnoresStoredPercentage and LookupProject state it |
| ProjectService.ReadIgnoresStoredPercentage | src/services/project-service.ts:46-53 | a read reports the percentage of the stored tasks, whatever percentage is stored |
| ProjectService.LookupProject | src/services/project-service.ts:61-81 | a project comes back exactly when the read succeeds and the document exists, with the document's id, name, owner, deadline, notes, tasks, activities and files and the recomputed percentage |
| ProjectService.GetProjectById | src/services/project-service.ts:61-81 | returns the lookup result, null when absent or on a failed read |
| ProjectService.GetProjects | src/services/project-service.ts:40-59 | [] on an empty collection or a failed read; otherwise every document exactly once, read with its recomputed percentage |
| ProjectService.NewProjectDoc | src/services/project-service.ts:84-93 | the new record holds the supplied tasks, no activities or files, the description as progress notes, the caller as owner and percentage 0 |
| ProjectService.AddProject | src/services/project-service.ts:83-104 | stores exactly one new document under the fresh id and returns it; on failure 'Failed to create project' and nothing written |
| ProjectService.WithMetadata | src/services/project-service.ts:109-113 | only name, progress notes and deadline change |
| ProjectService.UpdateProject | src/services/project-service.ts:106-121 | replaces those three fields of an existing document; 'Failed to update project' with nothing written when it is missing or the write fails |
| ProjectService.DeleteProject | src/services/project-service.ts:123-133 | removes the document, and only it; 'Failed to delete project' with nothing removed on failure |
| ProjectService.DeletedProjectIsGone | src/services/project-service.ts:126 | after a delete, looking the id up yields null and other lookups are unchanged |
| ProjectService.WithFile | src/services/project-service.ts:140 | only the file list changes, by `arrayUnion` |
| ProjectService.AddFileIdempotent | src/services/project-service.ts:140 | adding the same file record twice equals adding it once |
| ProjectService.AddFileToProject | src/services/project-service.ts:136-147 | records the file on an existing project; 'Failed to add file' with nothing written otherwise |
| TaskService.NewTask | src/services/task-service.ts:56-63 | the new task copies title, priority, status and assignee; its due date is null exactly when the input's is |
| TaskService.CreatedText | src/services/task-service.ts:74-77 | `created a new task: "T"`, with ` and assigned it to N` exactly when there is an assignee |
| TaskService.CreateActivity | src/services/task-service.ts:28-33 | `createActivity`: the activity with the supplied fresh id, text, time and acting user; AddTask and UpdateTask state where it is stored |
| TaskService.UpdatedText | src/services/task-service.ts:112-122 | the `activityText` chain of `updateTask`; AssigneeChangeOverridesStatusMove and KeptAssigneeText state all four outcomes |
| TaskService.AssigneeChangeOverridesStatusMove | src/services/task-service.ts:112-122 | a changed assignee gives the assigned/unassigned text even when the status changed too |
| TaskService.KeptAssigneeText | src/services/task-service.ts:112-122 | with the assignee kept, a status change gives `moved task "T" from A to B`, and otherwise `updated task: "T"` |
| TaskService.FindById | src/services/task-service.ts:106-110 | finds a task exactly when one has the id, and then the first such task |
| TaskService.ReplaceById | src/services/task-service.ts:125 | `tasks.map(task => task.id === updatedTask.id ? updatedTask : task)`; ReplaceByIdKeepsOthers and ReplaceByIdIsSingleUpdate state it |
| TaskService.ReplaceByIdKeepsOthers | src/services/task-service.ts:125 | the list keeps its length; tasks with the id become the updated task, all others keep their place |
| TaskService.ReplaceByIdIsSingleUpdate | src/services/task-service.ts:125 | with unique ids, replacing by id updates the one index holding that id |
| TaskService.AddTaskAppendsOne | src/services/task-service.ts:71-84 | with fresh ids, exactly one task and one activity are appended, earlier ones are kept, and the stored percentage is that of the extended list |
| TaskService.AddTask | src/services/task-service.ts:53-92 | a missing project or failed call gives 'Failed to create task' and no write; otherwise the one document gets the new task, its percentage and the creation activity |
| TaskService.UpdateTask | src/services/task-service.ts:94-143 | fails, with 'Failed to update task' and no write, exactly when the project or the task is missing or a call fails; otherwise writes the replaced list, its percentage and one activity with the override-ordered text |
| TaskService.UpdateTaskAppendsOneActivity | src/services/task-service.ts:123-133 | one activity is appended, the number of tasks is kept, and the percentage is that of the new list |
| UserService.UserCollection.constructor | src/services/user-service.ts:10 | an empty directory, every user stored under its own id |
| UserService.NameFor | src/services/user-service.ts:43 | the given name, or when empty the email's text before the first '@' |
| UserService.Initials | src/services/user-service.ts:49 | at most two characters |
| UserService.InitialsOfOneWord | src/services/user-service.ts:49 | a one-word name gives its first letter |
| UserService.InitialsOfWords | src/services/user-service.ts:89 | a name of several words gives the first letters of the first two |
| UserService.InitialsOfEmpty | src/services/user-service.ts:49 | an empty name gives no initials |
| UserService.InitialsAfterLeadingSpace | src/services/user-service.ts:49 | a leading space empties the first token, so only the word's first letter is kept |
| UserService.InitialsWithDoubledSpace | src/services/user-service.ts:49 | a doubled space empties the second token, so only the first word's letter is kept |
| UserService.PlaceholderAvatar | src/services/user-service.ts:48 | the picsum avatar URL for a name; InvitedUser and LoginUser state where it is used |
| UserService.EmailTaken | src/services/user-service.ts:36-40 | the `where('email', '==', email)` query is non-empty; AddUserResult and SecondInviteWithSameEmailFails state its effect |
| UserService.InvitedUser | src/services/user-service.ts:43-50 | the new user has the email, the derived name, the picsum avatar for that name and its initials |
| UserService.AddUserResult | src/services/user-service.ts:35-55 | an email already present gives 'A user with this email already exists.' and no change; otherwise exactly one user is added and returned |
| UserService.SecondInviteWithSameEmailFails | src/services/user-service.ts:36-40 | inviting the same email twice: the second call fails and the directory keeps one new user |
| UserService.AddUser | src/services/user-service.ts:35-55 | the directory and result are those of the specification above |
| UserService.GetUsers | src/services/user-service.ts:61-72 | [] on an empty collection or a failed read; otherwise every stored user exactly once |
| UserService.LoginUser | src/services/user-service.ts:82-90 | keyed by uid, with the email, the derived name, the photo URL or the picsum avatar, and the initials |
| UserService.AfterLogin | src/services/user-service.ts:78-93 | unchanged when the uid is known or the email missing; otherwise exactly one record is added under the uid |
| UserService.LoginIdempotent | src/services/user-service.ts:78-93 | signing in twice equals signing in once |
| UserService.LoginMayDuplicateEmail | src/services/user-service.ts:82 | only the uid is checked, so two records may share an email |
| UserService.AddUserOnLogin | src/services/user-service.ts:78-93 | the directory after the call is the specification above, every user under its own id |
| Session.CurrentUser | src/components/projects/kanban-view.tsx:126-131 | the acting user is keyed by uid; the name is displayName or 'Anonymous'; the initial is its first character or 'A' |
| Session.FindMember | src/components/projects/edit-task-form.tsx:86 | finds a member exactly when one has the id, and then the first such member |
| Session.ResolveAssignee | src/components/projects/add-task-form.tsx:81 | null when the id is empty, missing or unknown; otherwise the first team member with that id |
| KanbanView.Board | src/components/projects/kanban-view.tsx:81 | four columns, in the order Backlog, To-do, In Progress, Done, each with its tasks; together the columns are a permutation of the tasks |
| KanbanView.ColumnsPartitionTasks | src/components/projects/kanban-view.tsx:155-162 | each column holds exactly the tasks with its status, and together the columns hold every task once |
| KanbanView.FirstOccurrencesFacts | src/components/projects/kanban-view.tsx:89-97 | deduplicating keeps every id |
| KanbanView.MembersMap | src/components/projects/kanban-view.tsx:87-98 | the `Map` the owner and the assignees are set into, in order; MembersMapWellFormed, MembersMapOrder and MembersMapLatest state it, and TeamMembers computes it |
| KanbanView.MapSetKeepsWellFormed | src/components/projects/kanban-view.tsx:95 | setting a key in the member map keeps ids distinct and keys consistent, and the first key stays first |
| KanbanView.MembersMapWellFormed | src/components/projects/kanban-view.tsx:88-97 | the member map's ids are distinct, and the owner's id comes first |
| KanbanView.MembersMapOrder | src/components/projects/kanban-view.tsx:88-97 | each id keeps its first insertion position |
| KanbanView.MembersMapLatest | src/components/projects/kanban-view.tsx:88-97 | each id holds the last snapshot set for it |
| KanbanView.MembersIncludeOwnerAndAssignees | src/components/projects/kanban-view.tsx:87-98 | the owner and every assignee are members |
| KanbanView.LatestSnapshotFound | src/components/projects/kanban-view.tsx:92-96 | every assignee has a snapshot |
| KanbanView.LatestSnapshotOfOwner | src/components/projects/kanban-view.tsx:89 | the owner has a snapshot |
| KanbanView.TeamMembers | src/components/projects/kanban-view.tsx:87-98 | the owner first, ids unique, every assignee present, each member the last snapshot of its id, ids in first-insertion order |
| KanbanView.HandleDragEnd | src/components/projects/kanban-view.tsx:109-150 | nothing without a different drop target; sign-in required without a user; an update only for a found task dropped on another column, differing from the original only in status, sent as the acting user |
| EditTaskForm.ValidValues | src/components/projects/edit-task-form.tsx:36-42 | the zod schema: a non-empty title; SubmitEdit states what a failing value leads to |
| EditTaskForm.EditDefaults | src/components/projects/edit-task-form.tsx:58-64 | defaults copy the task's fields; the assignee id is the assignee's id, or null |
| EditTaskForm.UpdatedTask | src/components/projects/edit-task-form.tsx:86-94 | keeps the task's id, takes title, status, priority and due date from the form, and resolves the assignee among the members |
| EditTaskForm.SubmitEdit | src/components/projects/edit-task-form.tsx:36-95 | invalid exactly for an empty title; sign-in required exactly without a user; otherwise `updateTask` with the merged task and the acting user |
| EditTaskForm.SubmittingDefaultsKeepsTask | src/components/projects/edit-task-form.tsx:58-95 | submitting the defaults unchanged sends the task as it was |
| EditTaskForm.UnknownAssigneeIsDropped | src/components/projects/edit-task-form.tsx:86 | an assignee id that is not a member gives no assignee |
| AddTaskForm.ValidValues | src/components/projects/add-task-form.tsx:34-39 | the zod schema: a non-empty title; DefaultsAreRejected and SubmitAdd state it |
| AddTaskForm.DefaultsAreRejected | src/components/projects/add-task-form.tsx:34-59 | the defaults are title '', Medium, no date, no assignee, and fail the title rule |
| AddTaskForm.SubmitAdd | src/components/projects/add-task-form.tsx:44-84 | invalid exactly for an empty title; sign-in required exactly without a user; otherwise `addTask` with the column's status and the resolved assignee |
| AddTaskForm.NewTaskLandsInItsColumn | src/components/projects/add-task-form.tsx:44 | the added task appears at the end of its own column only |
| AddProjectForm.ValidValues | src/components/projects/add-project-form.tsx:34-38 | the zod schema: a non-empty name and description and a deadline; SubmitProject states what a failing value leads to |
| AddProjectForm.GeneratedTasks | src/components/projects/add-project-form.tsx:91-98 | one task per suggestion, in order, title and priority copied, To-do, no due date, no assignee |
| AddProjectForm.GeneratedIdsAreDistinct | src/components/projects/add-project-form.tsx:92 | fresh ids make the generated tasks' ids pairwise distinct |
| AddProjectForm.GeneratedProjectStartsAtZero | src/components/projects/add-project-form.tsx:91-101 | no generated task is Done, so the project starts at 0% |
| AddProjectForm.SubmitProject | src/components/projects/add-project-form.tsx:34-118 | invalid exactly when a field is empty; sign-in required exactly without a user; an error when generation fails; otherwise `addProject` with the generated tasks and the acting user as owner |
| StatusCounts.AllTasksSnoc | src/components/dashboard/task-overview-chart.tsx:33-37 | the tasks of one more project follow the earlier ones |
| StatusCounts.Counts.Incr | src/components/dashboard/task-overview-chart.tsx:35 | incrementing one status leaves the other three counters alone |
| StatusCounts.TotalCounts | src/components/dashboard/task-overview-chart.tsx:26-37 | each counter is the number of tasks with that status across all projects; they add up to the number of tasks |
| StatusCounts.CountStatuses | src/components/analytics/task-status-breakdown.tsx:26-37 | the nested loops compute those counters |
| StatusCounts.SumOfFour | src/components/dashboard/task-overview-chart.tsx:39-44 | the sum of four entries is the sum of their counts |
| StatusCounts.Positive | src/components/dashboard/task-overview-chart.tsx:44 | keeps exactly the entries with a positive count |
| StatusCounts.PositiveKeepsSum | src/components/analytics/task-status-breakdown.tsx:45 | dropping zero counts keeps the sum |
| StatusCounts.PositiveKeepsOrder | src/components/analytics/task-status-breakdown.tsx:45 | dropping zero counts keeps the order |
| TaskOverviewChart.Slices | src/components/dashboard/task-overview-chart.tsx:39-44 | the four entries with their counts and colours, Done first, before the filter; SlicesFacts states it |
| TaskOverviewChart.SlicesFacts | src/components/dashboard/task-overview-chart.tsx:39-43 | the four slices come in the order Done, In Progress, To-do, Backlog and sum to the total |
| TaskOverviewChart.Entries | src/components/dashboard/task-overview-chart.tsx:39-44 | at most four entries, in order, each with a positive count, the status's count and colour; a status is shown exactly when it has tasks; the counts sum to the total |
| TaskOverviewChart.TaskData | src/components/dashboard/task-overview-chart.tsx:26-44 | the chart data are those entries for the counted tasks |
| TaskOverviewChart.SlicesCountAllTasks | src/components/dashboard/task-overview-chart.tsx:26-44 | each entry counts the tasks of its status across projects; the counts sum to the number of tasks |
| TaskOverviewChart.NoEntriesWithoutTasks | src/components/dashboard/task-overview-chart.tsx:47 | the data are empty exactly when there are no tasks |
| TaskOverviewChart.Render | src/components/dashboard/task-overview-chart.tsx:47-58 | "No tasks found." exactly for empty data |
| TaskStatusBreakdown.ConfigColor | src/components/analytics/task-status-breakdown.tsx:13-21 | `chartConfig[key]?.color`: the colour of each status key, none for `count`; Fill and FillMatchesOverview state it |
| TaskStatusBreakdown.Fill | src/components/analytics/task-status-breakdown.tsx:13-21 | every status has a configured colour, and the entry uses it |
| TaskStatusBreakdown.FillMatchesOverview | src/components/analytics/task-status-breakdown.tsx:43 | the colours agree with the overview chart's |
| TaskStatusBreakdown.Slices | src/components/analytics/task-status-breakdown.tsx:39-44 | `Object.entries(statusCounts).map(...)`: the four entries in key order, Backlog first, before the filter; SlicesFacts states it |
| TaskStatusBreakdown.SlicesFacts | src/components/analytics/task-status-breakdown.tsx:39-44 | the four slices come in the order Backlog, To-do, In Progress, Done and sum to the total |
| TaskStatusBreakdown.Entries | src/components/analytics/task-status-breakdown.tsx:39-45 | at most four entries, in order, positive, each with its status's count and fill; a status is shown exactly when it has tasks; the counts sum to the total |
| TaskStatusBreakdown.TaskData | src/components/analytics/task-status-breakdown.tsx:26-45 | the chart data are those entries for the counted tasks |
| TaskStatusBreakdown.EntriesCountAllTasks | src/components/analytics/task-status-breakdown.tsx:26-45 | each entry counts the tasks of its status across projects; the counts sum to the number of tasks |
| TaskStatusBreakdown.NoEntriesWithoutTasks | src/components/analytics/task-status-breakdown.tsx:48 | the data are empty exactly when there are no tasks |
| TaskStatusBreakdown.Render | src/components/analytics/task-status-breakdown.tsx:48-54 | "No task data available." exactly for empty data |
| TaskDistributionChart.ChartData | src/components/analytics/task-distribution-chart.tsx:12-17 | one row per project, in project order |
| TaskDistributionChart.RowOf | src/components/analytics/task-distribution-chart.tsx:12-17 | one bar: the project's name and its To-do, In Progress and Done counts; RowLeavesOutBacklog and SegmentsAgreeWithPieCounts state it |
| TaskDistributionChart.RowLeavesOutBacklog | src/components/analytics/task-distribution-chart.tsx:14-16 | a row's three counts sum to the number of tasks minus the backlog, each at most the number of tasks |
| TaskDistributionChart.SegmentsAgreeWithPieCounts | src/components/analytics/task-distribution-chart.tsx:14-16 | summed over projects, each bar segment equals the pie charts' count of that status |
| RecentActivity.AllActivities | src/components/dashboard/recent-activity.tsx:8 | holds exactly the activities of all projects |
| RecentActivity.At | src/components/dashboard/recent-activity.tsx:8 | the activities with a given timestamp |
| RecentActivity.InsertIsPermutation | src/components/dashboard/recent-activity.tsx:8 | inserting adds exactly one element |
| RecentActivity.InsertKeepsOrder | src/components/dashboard/recent-activity.tsx:8 | inserting keeps the list newest-first |
| RecentActivity.InsertAt | src/components/dashboard/recent-activity.tsx:8 | an inserted activity goes before the earlier ones with its timestamp |
| RecentActivity.SortIsPermutation | src/components/dashboard/recent-activity.tsx:8 | the feed is a permutation of all activities |
| RecentActivity.SortIsNewestFirst | src/components/dashboard/recent-activity.tsx:8 | the feed is newest-first |
| RecentActivity.SortIsStable | src/components/dashboard/recent-activity.tsx:8 | activities with equal timestamps keep their source order |
| RecentActivity.NewestFirstStableIsUnique | src/components/dashboard/recent-activity.tsx:8 | a newest-first list that keeps source order at each timestamp is unique, so the model's sort is the stable sort's result |
| RecentActivity.AtOfNewestFirstTail | src/components/dashboard/recent-activity.tsx:8 | dropping the head removes it from its timestamp's group only |
| RecentActivity.FirstIsNewest | src/components/dashboard/recent-activity.tsx:8 | the head of a newest-first list is the newest |
| RecentActivity.SameFirst | src/components/dashboard/recent-activity.tsx:8 | two such lists with the same groups share their head |
| RecentActivity.SameTails | src/components/dashboard/recent-activity.tsx:8 | two lists with the same head and groups have tails with the same groups |
| RecentActivity.NothingAtAnyTime | src/components/dashboard/recent-activity.tsx:8 | a list with no activity at any timestamp is empty |
| RecentActivity.HeadIsAtItsTime | src/components/dashboard/recent-activity.tsx:8 | the head belongs to its own timestamp's group |
| RecentActivity.Feed | src/components/dashboard/recent-activity.tsx:8 | `allActivities`: the flattened activities sorted newest first; SortIsPermutation, SortIsNewestFirst, SortIsStable and NewestFirstStableIsUnique state it |
| RecentActivity.Shown | src/components/dashboard/recent-activity.tsx:32 | at most five, the first of the feed |
| RecentActivity.ShownAreNewest | src/components/dashboard/recent-activity.tsx:8-32 | the shown entries are the newest activities |
| RecentActivity.NoActivitiesAnywhere | src/components/dashboard/recent-activity.tsx:10 | the feed is empty exactly when no project has an activity |
| RecentActivity.Render | src/components/dashboard/recent-activity.tsx:10-32 | "No recent activity to display." exactly when no project has activities; otherwise one to five newest entries |
| AppHeader.PathSegments | src/components/layout/app-header.tsx:32 | the segments are non-empty and contain no '/'; their order and repeats are those of the split, by Strings.NonEmptyAppend and Strings.NonEmptySingle |
| Strings.NonEmptySingle | src/components/layout/app-header.tsx:32 | `filter(Boolean)` on one string keeps it exactly when it is not empty |
| Strings.NonEmptyAppend | src/components/layout/app-header.tsx:32 | `filter(Boolean)` distributes over concatenation, so order and repeats are kept |
| AppHeader.RootHasNoSegments | src/components/layout/app-header.tsx:32 | "/" and "" have no segments |
| AppHeader.DoubledAndTrailingSlashes | src/components/layout/app-header.tsx:32 | "/a//b/" gives exactly ["a", "b"] |
| AppHeader.NonEmptyKeepsNonEmpty | src/components/layout/app-header.tsx:32 | filtering keeps a list with no empty strings as it is |
| AppHeader.Link | src/components/layout/app-header.tsx:47-49 | `getLink(index)`: "/" and the first index + 1 segments joined by "/"; LinkExtends and CanonicalPathRoundTrip state it |
| AppHeader.LinkExtends | src/components/layout/app-header.tsx:47-49 | each link extends the previous one by '/' and the next segment |
| AppHeader.CanonicalPathRoundTrip | src/components/layout/app-header.tsx:32-49 | splitting '/' joined with the segments gives them back, and the last link is that path |
| AppHeader.Label | src/components/layout/app-header.tsx:68-72 | same length, every '-' becomes a space, other characters unchanged |
| AppHeader.Breadcrumbs | src/components/layout/app-header.tsx:58-78 | Home first, then one crumb per segment, labelled; only the last is the current page; the others link to their prefix |
| AppHeader.AfterKey | src/components/layout/app-header.tsx:37-42 | the keydown handler's new flag: toggled on "k" with Meta or Ctrl, else kept; ShortcutTwiceRestores and SearchToggle.KeyDown state it |
| AppHeader.ShortcutTwiceRestores | src/components/layout/app-header.tsx:38-40 | Ctrl/Cmd+K flips the flag, and twice restores it |
| AppHeader.SearchToggle.constructor | src/components/layout/app-header.tsx:34 | the search starts closed |
| AppHeader.SearchToggle.KeyDown | src/components/layout/app-header.tsx:36-45 | Ctrl/Cmd+K toggles the flag; any other key leaves it |
| AppHeader.SearchToggle.ClickSearch | src/components/layout/app-header.tsx:84 | a click opens the search |
| AppHeader.SearchToggle.SetOpen | src/components/layout/app-header.tsx:121 | the search dialog sets the flag through `onOpenChange` |
| AppHeader.AvatarFallback | src/components/layout/app-header.tsx:106 | the display name's first character, or 'U' |
| AppSidebar.IsActive | src/components/layout/app-sidebar.tsx:47 | the `isActive` expression; ActiveByPrefix, PrefixIsNotSegmentAware and AtMostOneActive state it |
| AppSidebar.ActiveByPrefix | src/components/layout/app-sidebar.tsx:47 | longer hrefs are active exactly on a prefix; a one-character href only on an exact match |
| AppSidebar.PrefixIsNotSegmentAware | src/components/layout/app-sidebar.tsx:25-47 | '/projects/p1' activates Projects, '/teamwork' activates Team, '/dashboard' does not activate Projects |
| AppSidebar.AtMostOneActive | src/components/layout/app-sidebar.tsx:25-47 | no path activates two of the five items |
| ProjectFiles.Classify | src/components/projects/project-files.tsx:21-26 | case-insensitive, first match wins: 'pdf', then 'figma', then 'word' or 'document', else generic |
| ProjectFiles.ToLowerIdempotent | src/components/projects/project-files.tsx:22-24 | lower-casing twice equals once |
| ProjectFiles.ClassifyIgnoresCase | src/components/projects/project-files.tsx:21-26 | the icon ignores case |
| ProjectFiles.PdfWinsOverWord | src/components/projects/project-files.tsx:22-24 | a type with both 'pdf' and 'word' gets the PDF icon |
| ProjectFiles.Rows | src/components/projects/project-files.tsx:112-143 | a missing or empty list gives the one "No files uploaded yet." row; otherwise one row per file with its icon |
| ProjectFiles.UploadPanel.constructor | src/components/projects/project-files.tsx:30 | not uploading, empty input |
| ProjectFiles.UploadPanel.BeginUpload | src/components/projects/project-files.tsx:37 | the flag is up while the upload runs; the input is untouched |
| ProjectFiles.UploadPanel.EndUpload | src/components/projects/project-files.tsx:56-61 | the flag goes down and the input is cleared |
| ProjectFiles.UploadPanel.HandleFileChange | src/components/projects/project-files.tsx:33-63 | no file changes nothing; otherwise the flag ends false and the input cleared, on success and on failure, with the matching toast |
| WelcomeHeader.GreetingName | src/components/dashboard/welcome-header.tsx:9 | the display name's text before the first space, or 'friend' when missing or that text is empty |
| WelcomeHeader.GreetingIsFirstWord | src/components/dashboard/welcome-header.tsx:9 | a name other than 'friend' has no space and starts the display name |
| WelcomeHeader.LeadingSpaceFallsBack | src/components/dashboard/welcome-header.tsx:9 | a display name starting with a space gives 'friend' |

## Left out

- The document database, file storage and authentication services. Collections are in-memory maps, and each failing call is a `storeFails` or `uploadSucceeds` parameter.
- `revalidatePath` cache invalidation. It has no effect on the data.
- `uuidv4()`, `new Date()` and the database's generated ids. They are parameters; freshness is a `requires` where the source relies on it.
- Dates as ISO-8601 text. They are `Instant` values, with `toISOString` and `new Date(...)` taken as inverses, and the feed sorts by their millisecond value.
- `formatBytes` and the Gantt view. Both depend on floating-point arithmetic and date arithmetic.
- The AI flows. The add-project form takes the generator's suggestions, or its failure, as a parameter.
- Completion.CompletionPercentage: the model computes the exact round-half-up `(200·done + total) div (2·total)`. The source computes `Math.round((done/total)*100)` in IEEE double arithmetic, which can land just below an exact half and round it down: 23 done of 40 gives `57.49999999999999`, so the source stores 57 where the model has 58 (29 of 200 likewise gives 14 against 15). The stored and read percentages, and `RoundingIsUnique`, follow the exact value. The 0, 100 and monotonicity lemmas hold for the floating-point value as well.
- The lost-update race between concurrent read-modify-write calls in `addTask` and `updateTask`. Calls are modelled one at a time.
- Stored documents lacking `tasks`, `activities` or `files`, and the `|| []` fallbacks that read them as empty. Every write path in the model stores all three.
- `if (project.owner)` in the Kanban board. The owner is always present in the model.
- KanbanView.HandleDragEnd, EditTaskForm.SubmitEdit, AddTaskForm.SubmitAdd, AddProjectForm.SubmitProject: the acting user the forms build omits `email`; the model stores "".
- EditTaskForm.UpdatedTask: the spread `...values` also stores the form's `assigneeId` field on the task; the model's task type has no such field.
- UserService.AddUser, UserService.AddUserOnLogin: a failing database call rethrows the raw backend error, which the model does not represent.
- The order `getProjects` and `getUsers` return documents in. The model leaves it open.
- Non-ASCII `toLowerCase`. Only ASCII letters are folded.
- AppHeader.Label: the crumbs are rendered with the CSS class `capitalize`, so the visible label has each word's first letter upper-cased. CSS text transforms are rendering and are not modelled; the label states the text before that transform.
- Strings.FirstChar, UserService.Initials, Session.CurrentUser, AppHeader.AvatarFallback: a character is a Unicode scalar value, not a UTF-16 code unit. For a name that starts with a character outside the Basic Multilingual Plane, such as an emoji, `charAt(0)` and `s[0]` give a lone surrogate; the model gives the whole character.
- JSX rendering, toasts other than the upload result, dialogs, react-hook-form and zod internals, dnd-kit collision detection, and the search dialog's contents.
- Authentication plumbing: the auth context, the login page and the auth service.
- Components that only fetch and render: search command, recent projects, project status card, project header, delete-project dialog, invite-member form and task list.
