/** The analytics page's pie chart of task statuses, with colours looked up in the chart configuration. */
module TaskStatusBreakdown {
  import opened Wrappers
  import opened Types
  import opened TaskFilters
  import opened StatusCounts
  import TaskOverviewChart

  const MutedColor: string := "hsl(var(--muted))"

  /** `chartConfig[key]?.color`: the `count` entry and unknown keys have no colour. */
  function ConfigColor(key: string): Option<string>
  {
    if key == "Done" then Some("hsl(var(--chart-2))")
    else if key == "In Progress" then Some("hsl(var(--chart-4))")
    else if key == "To-do" then Some("hsl(var(--chart-1))")
    else if key == "Backlog" then Some(MutedColor)
    else None
  }

  /** The fill of a status's slice: its configured colour, else the muted colour. */
  function Fill(s: Status): (fill: string)
    ensures ConfigColor(StatusName(s)).Some? && fill == ConfigColor(StatusName(s)).value
  {
    ConfigColor(StatusName(s)).GetOr(MutedColor)
  }

  /** Every status has a configured colour, the same one the dashboard chart uses. */
  lemma FillMatchesOverview(s: Status)
    ensures Fill(s) == TaskOverviewChart.SliceColor(s)
  {
  }

  /** The order of `Object.entries(statusCounts)`: the order the keys were written in. */
  function Rank(s: Status): nat
  {
    match s
    case Backlog => 0
    case ToDo => 1
    case InProgress => 2
    case Done => 3
  }

  function Slice(c: Counts, s: Status): ChartEntry
  {
    ChartEntry(s, c.Of(s), Fill(s))
  }

  /** One entry per status, in chart order. */
  function Slices(c: Counts): seq<ChartEntry>
  {
    [Slice(c, Backlog), Slice(c, ToDo), Slice(c, InProgress), Slice(c, Done)]
  }

  lemma SlicesFacts(c: Counts)
    ensures Sum(Slices(c)) == c.Total()
    ensures Ranked(Slices(c), Rank)
    ensures forall s :: Slice(c, s) in Slices(c)
    ensures forall e :: e in Slices(c) ==> e == Slice(c, e.status)
  {
    SumOfFour(Slice(c, Backlog), Slice(c, ToDo), Slice(c, InProgress), Slice(c, Done));
  }

  /** The four entries in key order, without those whose count is zero. */
  function Entries(c: Counts): (entries: seq<ChartEntry>)
    ensures |entries| <= 4
    ensures Ranked(entries, Rank)
    ensures forall e :: e in entries ==> e.count > 0 && e.count == c.Of(e.status) && e.fill == Fill(e.status)
    ensures forall s :: c.Of(s) > 0 <==> Slice(c, s) in entries
    ensures Sum(entries) == c.Total()
  {
    SlicesFacts(c);
    PositiveKeepsSum(Slices(c));
    PositiveKeepsOrder(Slices(c), Rank);
    Positive(Slices(c))
  }

  /** `taskData`: the counting loops, then `Object.entries`, `map` and `filter`. */
  method TaskData(projects: seq<Project>) returns (entries: seq<ChartEntry>)
    ensures entries == Entries(TotalCounts(projects))
  {
    var c := CountStatuses(projects);
    entries := Entries(c);
  }

  /** Each kept entry counts the tasks of its status across all projects, and they add up to all tasks. */
  lemma EntriesCountAllTasks(projects: seq<Project>)
    ensures forall e :: e in Entries(TotalCounts(projects)) ==> e.count == Count(AllTasks(projects), e.status)
    ensures Sum(Entries(TotalCounts(projects))) == |AllTasks(projects)|
  {
  }

  /** There are no entries, and so the empty state shows, exactly when no project has a task. */
  lemma NoEntriesWithoutTasks(projects: seq<Project>)
    ensures Entries(TotalCounts(projects)) == [] <==> AllTasks(projects) == []
  {
    var entries := Entries(TotalCounts(projects));
    if entries != [] {
      assert entries[0] in entries;
    }
  }

  datatype View = Message(text: string) | Pie(entries: seq<ChartEntry>)

  function Render(entries: seq<ChartEntry>): (v: View)
    ensures v.Message? <==> entries == []
    ensures v.Message? ==> v.text == "No task data available."
    ensures v.Pie? ==> v.entries == entries
  {
    if |entries| == 0 then Message("No task data available.") else Pie(entries)
  }
}
