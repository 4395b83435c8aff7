/**
 * The kanban board of a project: four status columns, the team members the
 * task forms offer as assignees, and the drag-and-drop handler that moves a
 * task to another column.
 */
module KanbanView {
  import opened Wrappers
  import opened Types
  import opened TaskFilters
  import opened Session
  import TaskService

  const Columns: seq<Status> := [Backlog, ToDo, InProgress, Done]

  /** The column of status `s`: `tasks.filter(task => task.status === s)`. */
  function ColumnTasks(tasks: seq<Task>, s: Status): seq<Task>
  {
    WithStatus(tasks, s)
  }

  /** The columns, left to right, each with its tasks; every task sits in exactly one of them. */
  function Board(tasks: seq<Task>): (board: seq<(Status, seq<Task>)>)
    ensures |board| == 4
    ensures forall i :: 0 <= i < 4 ==> board[i] == (Columns[i], ColumnTasks(tasks, Columns[i]))
    ensures multiset(board[0].1 + board[1].1 + board[2].1 + board[3].1) == multiset(tasks)
  {
    ColumnsPartitionTasks(tasks);
    seq(4, i requires 0 <= i < 4 => (Columns[i], ColumnTasks(tasks, Columns[i])))
  }

  /** Every task sits in exactly one column: together the columns are a permutation of the tasks. */
  lemma {:induction false} ColumnsPartitionTasks(tasks: seq<Task>)
    ensures multiset(ColumnTasks(tasks, Backlog) + ColumnTasks(tasks, ToDo)
                     + ColumnTasks(tasks, InProgress) + ColumnTasks(tasks, Done)) == multiset(tasks)
    ensures forall s, t :: t in ColumnTasks(tasks, s) <==> t in tasks && t.status == s
  {
    if tasks != [] {
      var init := tasks[..|tasks| - 1];
      ColumnsPartitionTasks(init);
      assert tasks == init + [tasks[|tasks| - 1]];
    }
  }

  /** A JavaScript `Map<string, User>`: the keys in insertion order and the value of each key. */
  datatype MemberMap = MemberMap(order: seq<string>, byId: map<string, User>)

  /** `map.set(id, u)`: a new key goes last; a known key keeps its place and takes the new value. */
  function MapSet(m: MemberMap, id: string, u: User): MemberMap
  {
    if id in m.byId then m.(byId := m.byId[id := u]) else MemberMap(m.order + [id], m.byId[id := u])
  }

  /** The keys are listed once each, and every value is stored under its own id. */
  ghost predicate WellFormed(m: MemberMap)
  {
    && (forall i, j :: 0 <= i < j < |m.order| ==> m.order[i] != m.order[j])
    && (forall k :: k in m.byId <==> k in m.order)
    && (forall k :: k in m.byId ==> m.byId[k].id == k)
  }

  /** `Array.from(map.values())`. */
  function Values(m: MemberMap): seq<User>
    requires forall k :: k in m.order ==> k in m.byId
  {
    seq(|m.order|, i requires 0 <= i < |m.order| => m.byId[m.order[i]])
  }

  /** The map after setting the owner, then the assignee of each of `tasks` in turn. */
  function MembersMap(owner: User, tasks: seq<Task>): MemberMap
  {
    if tasks == [] then MemberMap([owner.id], map[owner.id := owner])
    else
      var m := MembersMap(owner, tasks[..|tasks| - 1]);
      var t := tasks[|tasks| - 1];
      if t.assignee.Some? then MapSet(m, t.assignee.value.id, t.assignee.value) else m
  }

  /** The ids in the order the board meets them: the owner, then each task's assignee. */
  function MemberIds(owner: User, tasks: seq<Task>): seq<string>
  {
    if tasks == [] then [owner.id]
    else
      var t := tasks[|tasks| - 1];
      MemberIds(owner, tasks[..|tasks| - 1]) + (if t.assignee.Some? then [t.assignee.value.id] else [])
  }

  /** `ids` without repetitions, each kept where it first occurs. */
  function FirstOccurrences(ids: seq<string>): seq<string>
  {
    if ids == [] then []
    else
      var d := FirstOccurrences(ids[..|ids| - 1]);
      if ids[|ids| - 1] in d then d else d + [ids[|ids| - 1]]
  }

  /** The snapshot of `id` set last: the last assignee with that id, else the owner if it is the owner's. */
  function LatestSnapshot(owner: User, tasks: seq<Task>, id: string): Option<User>
  {
    if tasks == [] then (if id == owner.id then Some(owner) else None)
    else
      var t := tasks[|tasks| - 1];
      if t.assignee.Some? && t.assignee.value.id == id then Some(t.assignee.value)
      else LatestSnapshot(owner, tasks[..|tasks| - 1], id)
  }

  lemma {:induction false} FirstOccurrencesFacts(ids: seq<string>)
    ensures forall k :: k in FirstOccurrences(ids) <==> k in ids
  {
    if ids != [] {
      FirstOccurrencesFacts(ids[..|ids| - 1]);
      assert ids == ids[..|ids| - 1] + [ids[|ids| - 1]];
    }
  }

  /** `MapSet` keeps the keys distinct and every value under its own id. */
  lemma MapSetKeepsWellFormed(m: MemberMap, id: string, u: User)
    requires WellFormed(m) && u.id == id
    ensures WellFormed(MapSet(m, id, u))
    ensures |m.order| > 0 ==> MapSet(m, id, u).order[0] == m.order[0]
  {
  }

  /** The members map keeps one entry per id, the owner's first. */
  lemma {:induction false} MembersMapWellFormed(owner: User, tasks: seq<Task>)
    ensures WellFormed(MembersMap(owner, tasks))
    ensures |MembersMap(owner, tasks).order| >= 1 && MembersMap(owner, tasks).order[0] == owner.id
  {
    if tasks != [] {
      var init := tasks[..|tasks| - 1];
      MembersMapWellFormed(owner, init);
      var t := tasks[|tasks| - 1];
      if t.assignee.Some? {
        MapSetKeepsWellFormed(MembersMap(owner, init), t.assignee.value.id, t.assignee.value);
      }
    }
  }

  /** The keys are in order of first appearance: a later `set` of a known id does not move it. */
  lemma {:induction false} MembersMapOrder(owner: User, tasks: seq<Task>)
    ensures MembersMap(owner, tasks).order == FirstOccurrences(MemberIds(owner, tasks))
  {
    if tasks == [] {
      assert FirstOccurrences([owner.id]) == [owner.id] by {
        assert [owner.id][..0] == [];
      }
    } else {
      var init := tasks[..|tasks| - 1];
      MembersMapOrder(owner, init);
      MembersMapWellFormed(owner, init);
      var ids := MemberIds(owner, tasks);
      var t := tasks[|tasks| - 1];
      if t.assignee.Some? {
        assert ids[..|ids| - 1] == MemberIds(owner, init);
        FirstOccurrencesFacts(MemberIds(owner, init));
      } else {
        assert ids == MemberIds(owner, init);
      }
    }
  }

  /** Each id holds the snapshot set last. */
  lemma {:induction false} MembersMapLatest(owner: User, tasks: seq<Task>)
    ensures forall id :: id in MembersMap(owner, tasks).byId <==> LatestSnapshot(owner, tasks, id).Some?
    ensures forall id :: id in MembersMap(owner, tasks).byId ==>
              MembersMap(owner, tasks).byId[id] == LatestSnapshot(owner, tasks, id).value
  {
    if tasks != [] {
      MembersMapLatest(owner, tasks[..|tasks| - 1]);
    }
  }

  /** The owner and every assignee are members. */
  lemma MembersIncludeOwnerAndAssignees(owner: User, tasks: seq<Task>)
    ensures owner.id in MembersMap(owner, tasks).byId
    ensures forall t :: t in tasks && t.assignee.Some? ==> t.assignee.value.id in MembersMap(owner, tasks).byId
  {
    MembersMapLatest(owner, tasks);
    forall t | t in tasks && t.assignee.Some?
      ensures LatestSnapshot(owner, tasks, t.assignee.value.id).Some?
    {
      LatestSnapshotFound(owner, tasks, t);
    }
    assert LatestSnapshot(owner, tasks, owner.id).Some? by {
      LatestSnapshotOfOwner(owner, tasks);
    }
  }

  lemma {:induction false} LatestSnapshotFound(owner: User, tasks: seq<Task>, t: Task)
    requires t in tasks && t.assignee.Some?
    ensures LatestSnapshot(owner, tasks, t.assignee.value.id).Some?
  {
    var last := tasks[|tasks| - 1];
    if !(last.assignee.Some? && last.assignee.value.id == t.assignee.value.id) {
      var init := tasks[..|tasks| - 1];
      assert tasks == init + [last];
      assert t in init;
      LatestSnapshotFound(owner, init, t);
    }
  }

  lemma {:induction false} LatestSnapshotOfOwner(owner: User, tasks: seq<Task>)
    ensures LatestSnapshot(owner, tasks, owner.id).Some?
  {
    if tasks != [] {
      LatestSnapshotOfOwner(owner, tasks[..|tasks| - 1]);
    }
  }

  /** `teamMembers`: the map filled by `forEach`, read out as its values. */
  method TeamMembers(owner: User, tasks: seq<Task>) returns (members: seq<User>)
    ensures |members| >= 1 && members[0].id == owner.id
    ensures forall i, j :: 0 <= i < j < |members| ==> members[i].id != members[j].id
    ensures forall i :: 0 <= i < |members| ==> LatestSnapshot(owner, tasks, members[i].id) == Some(members[i])
    ensures forall t :: t in tasks && t.assignee.Some? ==> exists i :: 0 <= i < |members| && members[i].id == t.assignee.value.id
    ensures |members| == |FirstOccurrences(MemberIds(owner, tasks))|
    ensures forall i :: 0 <= i < |members| ==> members[i].id == FirstOccurrences(MemberIds(owner, tasks))[i]
  {
    var m := MemberMap([owner.id], map[owner.id := owner]);
    var i := 0;
    while i < |tasks|
      invariant 0 <= i <= |tasks|
      invariant m == MembersMap(owner, tasks[..i])
    {
      assert tasks[..i + 1][..i] == tasks[..i];
      var t := tasks[i];
      if t.assignee.Some? {
        m := MapSet(m, t.assignee.value.id, t.assignee.value);
      }
      i := i + 1;
    }
    assert tasks[..|tasks|] == tasks;
    MembersMapWellFormed(owner, tasks);
    MembersMapOrder(owner, tasks);
    MembersMapLatest(owner, tasks);
    MembersIncludeOwnerAndAssignees(owner, tasks);
    members := Values(m);
    forall t | t in tasks && t.assignee.Some?
      ensures exists i :: 0 <= i < |members| && members[i].id == t.assignee.value.id
    {
      var k :| 0 <= k < |m.order| && m.order[k] == t.assignee.value.id;
      assert members[k].id == t.assignee.value.id;
    }
  }

  /** What a drag end leads to: nothing, a sign-in error, no change, or an `updateTask` call. */
  datatype DragOutcome = Ignored | SignInRequired | Unchanged | SendUpdate(task: Task, actor: User)

  /** `handleDragEnd`: `activeId` is the dragged task, `overId` the drop target, if any. */
  function HandleDragEnd(tasks: seq<Task>, activeId: string, overId: Option<string>, user: Option<AuthUser>)
    : (r: DragOutcome)
    ensures r != Ignored <==> overId.Some? && overId.value != activeId
    ensures r == SignInRequired <==> overId.Some? && overId.value != activeId && user.None?
    ensures r.SendUpdate? <==>
      && overId.Some? && overId.value != activeId && user.Some?
      && TaskService.FindById(tasks, activeId).Some?
      && ParseStatus(overId.value).Some?
      && TaskService.FindById(tasks, activeId).value.status != ParseStatus(overId.value).value
    ensures r.SendUpdate? ==>
      && r.task.status == ParseStatus(overId.value).value
      && r.task == TaskService.FindById(tasks, activeId).value.(status := r.task.status)
      && r.actor == CurrentUser(user.value)
  {
    if overId.None? || overId.value == activeId then Ignored
    else
      var activeTask := TaskService.FindById(tasks, activeId);
      var newStatus := ParseStatus(overId.value);
      if user.None? then SignInRequired
      else
        var actor := CurrentUser(user.value);
        if activeTask.Some? && newStatus.Some? && activeTask.value.status != newStatus.value then
          SendUpdate(activeTask.value.(status := newStatus.value), actor)
        else Unchanged
  }
}
