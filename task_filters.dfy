/**
 * `tasks.filter(t => t.status === s)` and its length, used by the completion
 * percentage, the kanban columns and the three charts.
 */
module TaskFilters {
  import opened Types

  /** The tasks with status `s`, in their original order. */
  function WithStatus(tasks: seq<Task>, s: Status): (r: seq<Task>)
    ensures |r| <= |tasks|
    ensures forall t :: t in r <==> t in tasks && t.status == s
  {
    if tasks == [] then []
    else
      var init := WithStatus(tasks[..|tasks| - 1], s);
      assert tasks == tasks[..|tasks| - 1] + [tasks[|tasks| - 1]];
      if tasks[|tasks| - 1].status == s then init + [tasks[|tasks| - 1]] else init
  }

  function Count(tasks: seq<Task>, s: Status): nat
  {
    |WithStatus(tasks, s)|
  }

  lemma {:induction false} WithStatusAppend(a: seq<Task>, b: seq<Task>, s: Status)
    ensures WithStatus(a + b, s) == WithStatus(a, s) + WithStatus(b, s)
    decreases |b|
  {
    if b == [] {
      assert a + b == a;
    } else {
      var b', last := b[..|b| - 1], b[|b| - 1];
      var tail := if last.status == s then [last] else [];
      assert b == b' + [last];
      assert a + b == (a + b') + [last];
      calc {
        WithStatus(a + b, s);
        { WithStatusSnoc(a + b', last, s); }
        WithStatus(a + b', s) + tail;
        { WithStatusAppend(a, b', s); }
        (WithStatus(a, s) + WithStatus(b', s)) + tail;
        WithStatus(a, s) + (WithStatus(b', s) + tail);
        { WithStatusSnoc(b', last, s); }
        WithStatus(a, s) + WithStatus(b, s);
      }
    }
  }

  /** Filtering a list with one more task at the end. */
  lemma WithStatusSnoc(tasks: seq<Task>, t: Task, s: Status)
    ensures WithStatus(tasks + [t], s) == WithStatus(tasks, s) + (if t.status == s then [t] else [])
  {
    assert (tasks + [t])[..|tasks|] == tasks;
  }

  lemma CountAppend(a: seq<Task>, b: seq<Task>, s: Status)
    ensures Count(a + b, s) == Count(a, s) + Count(b, s)
  {
    WithStatusAppend(a, b, s);
  }

  /** Extending a prefix by one task adds one to the count of that task's status. */
  lemma CountSnoc(tasks: seq<Task>, j: nat, s: Status)
    requires j < |tasks|
    ensures Count(tasks[..j + 1], s) == Count(tasks[..j], s) + (if tasks[j].status == s then 1 else 0)
  {
    assert tasks[..j + 1][..j] == tasks[..j];
  }

  /** Every task has exactly one of the four statuses. */
  lemma {:induction false} CountPartition(tasks: seq<Task>)
    ensures Count(tasks, Backlog) + Count(tasks, ToDo) + Count(tasks, InProgress) + Count(tasks, Done) == |tasks|
  {
    if tasks != [] {
      CountPartition(tasks[..|tasks| - 1]);
    }
  }

  /** Replacing one task changes the count of a status by at most the two statuses involved. */
  lemma {:induction false} CountUpdate(tasks: seq<Task>, i: nat, t: Task, s: Status)
    requires i < |tasks|
    ensures Count(tasks[i := t], s) + (if tasks[i].status == s then 1 else 0)
         == Count(tasks, s) + (if t.status == s then 1 else 0)
  {
    var updated := tasks[i := t];
    assert tasks == tasks[..i] + [tasks[i]] + tasks[i + 1..];
    assert updated == tasks[..i] + [t] + tasks[i + 1..];
    CountAppend(tasks[..i] + [tasks[i]], tasks[i + 1..], s);
    CountAppend(tasks[..i], [tasks[i]], s);
    CountAppend(tasks[..i] + [t], tasks[i + 1..], s);
    CountAppend(tasks[..i], [t], s);
    assert [tasks[i]][..0] == [];
    assert [t][..0] == [];
  }
}
