/** The analytics page's stacked bar chart: per project, how many tasks are to do, in progress and done. */
module TaskDistributionChart {
  import opened Types
  import opened TaskFilters
  import opened StatusCounts

  /** One bar: `{ name, 'To-do', 'In Progress', 'Done' }`; backlog tasks have no bar segment. */
  datatype Row = Row(name: string, todo: nat, inProgress: nat, done: nat)

  function RowOf(p: Project): Row
  {
    Row(p.name, Count(p.tasks, ToDo), Count(p.tasks, InProgress), Count(p.tasks, Done))
  }

  /** `chartData`: one row per project, in project order. */
  function ChartData(projects: seq<Project>): (rows: seq<Row>)
    ensures |rows| == |projects|
    ensures forall i :: 0 <= i < |rows| ==> rows[i] == RowOf(projects[i])
  {
    seq(|projects|, i requires 0 <= i < |projects| => RowOf(projects[i]))
  }

  /** A bar's segments add up to the project's tasks less its backlog, and none exceeds the task count. */
  lemma RowLeavesOutBacklog(p: Project)
    ensures RowOf(p).todo + RowOf(p).inProgress + RowOf(p).done == |p.tasks| - Count(p.tasks, Backlog)
    ensures RowOf(p).todo <= |p.tasks| && RowOf(p).inProgress <= |p.tasks| && RowOf(p).done <= |p.tasks|
  {
    CountPartition(p.tasks);
  }

  /** The segment of status `s` in a row; Backlog has none. */
  function Segment(r: Row, s: Status): nat
  {
    match s
    case Backlog => 0
    case ToDo => r.todo
    case InProgress => r.inProgress
    case Done => r.done
  }

  /** The height of one colour of the chart, summed over the bars. */
  function SegmentTotal(rows: seq<Row>, s: Status): nat
  {
    if rows == [] then 0 else SegmentTotal(rows[..|rows| - 1], s) + Segment(rows[|rows| - 1], s)
  }

  /**
   * Across all bars, each non-backlog colour adds up to the number of tasks
   * with that status in all projects, the count the pie charts show.
   */
  lemma {:induction false} SegmentsAgreeWithPieCounts(projects: seq<Project>, s: Status)
    requires s != Backlog
    ensures SegmentTotal(ChartData(projects), s) == Count(AllTasks(projects), s)
  {
    if projects != [] {
      var n := |projects| - 1;
      var init := projects[..n];
      SegmentsAgreeWithPieCounts(init, s);
      assert ChartData(projects)[..n] == ChartData(init);
      AllTasksSnoc(projects, n);
      assert projects[..n + 1] == projects;
      CountAppend(AllTasks(init), projects[n].tasks, s);
    }
  }
}
