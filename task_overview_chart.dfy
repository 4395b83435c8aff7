/** The dashboard's pie chart of task statuses across all projects. */
module TaskOverviewChart {
  import opened Types
  import opened TaskFilters
  import opened StatusCounts

  /** The slice colours written into the chart data. */
  function SliceColor(s: Status): string
  {
    match s
    case Done => "hsl(var(--chart-2))"
    case InProgress => "hsl(var(--chart-4))"
    case ToDo => "hsl(var(--chart-1))"
    case Backlog => "hsl(var(--muted))"
  }

  /** The position of a status in the chart: Done, In Progress, To-do, Backlog. */
  function Rank(s: Status): nat
  {
    match s
    case Done => 0
    case InProgress => 1
    case ToDo => 2
    case Backlog => 3
  }

  function Slice(c: Counts, s: Status): ChartEntry
  {
    ChartEntry(s, c.Of(s), SliceColor(s))
  }

  /** One entry per status, in chart order. */
  function Slices(c: Counts): seq<ChartEntry>
  {
    [Slice(c, Done), Slice(c, InProgress), Slice(c, ToDo), Slice(c, Backlog)]
  }

  lemma SlicesFacts(c: Counts)
    ensures Sum(Slices(c)) == c.Total()
    ensures Ranked(Slices(c), Rank)
    ensures forall s :: Slice(c, s) in Slices(c)
    ensures forall e :: e in Slices(c) ==> e == Slice(c, e.status)
  {
    SumOfFour(Slice(c, Done), Slice(c, InProgress), Slice(c, ToDo), Slice(c, Backlog));
  }

  /** The four slices in chart order, without those whose count is zero. */
  function Entries(c: Counts): (entries: seq<ChartEntry>)
    ensures |entries| <= 4
    ensures Ranked(entries, Rank)
    ensures forall e :: e in entries ==> e.count > 0 && e.count == c.Of(e.status) && e.fill == SliceColor(e.status)
    ensures forall s :: c.Of(s) > 0 <==> Slice(c, s) in entries
    ensures Sum(entries) == c.Total()
  {
    SlicesFacts(c);
    PositiveKeepsSum(Slices(c));
    PositiveKeepsOrder(Slices(c), Rank);
    Positive(Slices(c))
  }

  /** `taskData`: the counting loops, then the ordered filter. */
  method TaskData(projects: seq<Project>) returns (entries: seq<ChartEntry>)
    ensures entries == Entries(TotalCounts(projects))
  {
    var c := CountStatuses(projects);
    entries := Entries(c);
  }

  /** Each slice counts the tasks of its status across all projects, and the slices add up to all tasks. */
  lemma SlicesCountAllTasks(projects: seq<Project>)
    ensures forall e :: e in Entries(TotalCounts(projects)) ==> e.count == Count(AllTasks(projects), e.status)
    ensures Sum(Entries(TotalCounts(projects))) == |AllTasks(projects)|
  {
  }

  /** There are no entries, and so the empty state shows, exactly when no project has a task. */
  lemma NoEntriesWithoutTasks(projects: seq<Project>)
    ensures Entries(TotalCounts(projects)) == [] <==> AllTasks(projects) == []
  {
    var entries := Entries(TotalCounts(projects));
    if entries != [] {
      assert entries[0] in entries;
    }
  }

  /** What the card shows: the empty-state text, or the pie of the entries. */
  datatype View = Message(text: string) | Pie(entries: seq<ChartEntry>)

  function Render(entries: seq<ChartEntry>): (v: View)
    ensures v.Message? <==> entries == []
    ensures v.Message? ==> v.text == "No tasks found."
    ensures v.Pie? ==> v.entries == entries
  {
    if |entries| == 0 then Message("No tasks found.") else Pie(entries)
  }
}
