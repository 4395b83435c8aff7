/**
 * The status tally both pie charts compute: a record of four counters,
 * incremented once per task of every project in nested `forEach` loops,
 * and the filtering of the resulting chart entries to those with a count.
 */
module StatusCounts {
  import opened Types
  import opened TaskFilters

  /** `projects.flatMap(p => p.tasks)`: every task of every project, project by project. */
  function AllTasks(projects: seq<Project>): seq<Task>
  {
    if projects == [] then [] else AllTasks(projects[..|projects| - 1]) + projects[|projects| - 1].tasks
  }

  lemma AllTasksSnoc(projects: seq<Project>, i: nat)
    requires i < |projects|
    ensures AllTasks(projects[..i + 1]) == AllTasks(projects[..i]) + projects[i].tasks
  {
    assert projects[..i + 1][..i] == projects[..i];
  }

  /** The `statusCounts` record: one counter per status. */
  datatype Counts = Counts(backlog: nat, todo: nat, inProgress: nat, done: nat)
  {
    function Of(s: Status): nat
    {
      match s
      case Backlog => backlog
      case ToDo => todo
      case InProgress => inProgress
      case Done => done
    }

    /** `statusCounts[s]++`. */
    function Incr(s: Status): (c: Counts)
      ensures c.Of(s) == Of(s) + 1
      ensures forall o :: o != s ==> c.Of(o) == Of(o)
    {
      match s
      case Backlog => this.(backlog := backlog + 1)
      case ToDo => this.(todo := todo + 1)
      case InProgress => this.(inProgress := inProgress + 1)
      case Done => this.(done := done + 1)
    }

    function Total(): nat
    {
      backlog + todo + inProgress + done
    }
  }

  /** The tally the loops must arrive at: the number of tasks of each status across all projects. */
  function TotalCounts(projects: seq<Project>): (c: Counts)
    ensures forall s :: c.Of(s) == Count(AllTasks(projects), s)
    ensures c.Total() == |AllTasks(projects)|
  {
    CountPartition(AllTasks(projects));
    var all := AllTasks(projects);
    Counts(Count(all, Backlog), Count(all, ToDo), Count(all, InProgress), Count(all, Done))
  }

  /** The nested `forEach` loops that fill `statusCounts`. */
  method CountStatuses(projects: seq<Project>) returns (c: Counts)
    ensures c == TotalCounts(projects)
  {
    c := Counts(0, 0, 0, 0);
    var i := 0;
    while i < |projects|
      invariant 0 <= i <= |projects|
      invariant forall s :: c.Of(s) == Count(AllTasks(projects[..i]), s)
    {
      var tasks := projects[i].tasks;
      var j := 0;
      while j < |tasks|
        invariant 0 <= j <= |tasks|
        invariant forall s :: c.Of(s) == Count(AllTasks(projects[..i]), s) + Count(tasks[..j], s)
      {
        forall s: Status
          ensures Count(tasks[..j + 1], s) == Count(tasks[..j], s) + (if tasks[j].status == s then 1 else 0)
        {
          CountSnoc(tasks, j, s);
        }
        c := c.Incr(tasks[j].status);
        j := j + 1;
      }
      assert tasks[..|tasks|] == tasks;
      AllTasksSnoc(projects, i);
      forall s: Status
        ensures Count(AllTasks(projects[..i + 1]), s) == Count(AllTasks(projects[..i]), s) + Count(tasks, s)
      {
        CountAppend(AllTasks(projects[..i]), tasks, s);
      }
      i := i + 1;
    }
    assert projects[..|projects|] == projects;
    SameCountsAreEqual(c, TotalCounts(projects));
  }

  /** Two counter records that agree on every status are the same record. */
  lemma SameCountsAreEqual(c: Counts, d: Counts)
    requires forall s :: c.Of(s) == d.Of(s)
    ensures c == d
  {
    assert c.Of(Backlog) == d.Of(Backlog) && c.Of(ToDo) == d.Of(ToDo);
    assert c.Of(InProgress) == d.Of(InProgress) && c.Of(Done) == d.Of(Done);
  }

  /** One slice of a pie chart: `{ status, count, fill }`. */
  datatype ChartEntry = ChartEntry(status: Status, count: nat, fill: string)

  function Sum(entries: seq<ChartEntry>): nat
  {
    if entries == [] then 0 else entries[0].count + Sum(entries[1..])
  }

  /** The entries listed in strictly increasing `rank` of their status. */
  predicate Ranked(entries: seq<ChartEntry>, rank: Status -> nat)
  {
    forall i, j :: 0 <= i < j < |entries| ==> rank(entries[i].status) < rank(entries[j].status)
  }

  lemma SumOfFour(a: ChartEntry, b: ChartEntry, c: ChartEntry, d: ChartEntry)
    ensures Sum([a, b, c, d]) == a.count + b.count + c.count + d.count
  {
    assert [d][1..] == [];
    assert Sum([d]) == d.count;
    assert [c, d][1..] == [d];
    assert Sum([c, d]) == c.count + d.count;
    assert [b, c, d][1..] == [c, d];
    assert Sum([b, c, d]) == b.count + c.count + d.count;
    assert [a, b, c, d][1..] == [b, c, d];
  }

  /** `.filter(item => item.count > 0)`. */
  function Positive(entries: seq<ChartEntry>): (r: seq<ChartEntry>)
    ensures |r| <= |entries|
    ensures forall e :: e in r <==> e in entries && e.count > 0
  {
    if entries == [] then []
    else if entries[0].count > 0 then [entries[0]] + Positive(entries[1..])
    else Positive(entries[1..])
  }

  /** Dropping the zero entries leaves the sum unchanged. */
  lemma {:induction false} PositiveKeepsSum(entries: seq<ChartEntry>)
    ensures Sum(Positive(entries)) == Sum(entries)
  {
    if entries != [] {
      PositiveKeepsSum(entries[1..]);
      if entries[0].count > 0 {
        assert ([entries[0]] + Positive(entries[1..]))[1..] == Positive(entries[1..]);
      }
    }
  }

  /** Filtering keeps the entries in their order. */
  lemma {:induction false} PositiveKeepsOrder(entries: seq<ChartEntry>, rank: Status -> nat)
    requires Ranked(entries, rank)
    ensures Ranked(Positive(entries), rank)
  {
    if entries != [] {
      var rest := Positive(entries[1..]);
      PositiveKeepsOrder(entries[1..], rank);
      if entries[0].count > 0 {
        HeadOutranksTail(entries, rank);
        RankedCons(entries[0], rest, rank);
      }
    }
  }

  /** In a ranked list the head has a smaller rank than every later entry. */
  lemma HeadOutranksTail(entries: seq<ChartEntry>, rank: Status -> nat)
    requires entries != [] && Ranked(entries, rank)
    ensures forall e :: e in entries[1..] ==> rank(entries[0].status) < rank(e.status)
  {
    forall e | e in entries[1..]
      ensures rank(entries[0].status) < rank(e.status)
    {
      var k :| 0 <= k < |entries[1..]| && entries[1..][k] == e;
      assert entries[k + 1] == e;
    }
  }

  /** An entry outranked by every entry of a ranked list can go in front of it. */
  lemma RankedCons(x: ChartEntry, rest: seq<ChartEntry>, rank: Status -> nat)
    requires Ranked(rest, rank)
    requires forall e :: e in rest ==> rank(x.status) < rank(e.status)
    ensures Ranked([x] + rest, rank)
  {
    var r := [x] + rest;
    forall i, j | 0 <= i < j < |r|
      ensures rank(r[i].status) < rank(r[j].status)
    {
      assert r[j] == rest[j - 1];
      if i > 0 {
        assert r[i] == rest[i - 1];
      }
    }
  }
}
