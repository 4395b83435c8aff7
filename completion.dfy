/**
 * The completion percentage of a project: the share of its tasks whose
 * status is Done, rounded to the nearest whole percent, 0 without tasks.
 * Both services define it identically.
 */
module Completion {
  import opened Types
  import opened TaskFilters

  /**
   * `r` is 100·done/total rounded half up, as `Math.round` rounds:
   * r - 1/2 <= 100·done/total < r + 1/2, multiplied out by 2·total.
   */
  predicate RoundsHalfUpTo(r: int, done: int, total: int)
  {
    2 * total * r <= 200 * done + total < 2 * total * (r + 1)
  }

  function CompletionPercentage(tasks: seq<Task>): (pct: nat)
    ensures pct <= 100
    ensures |tasks| == 0 ==> pct == 0
    ensures |tasks| > 0 ==> RoundsHalfUpTo(pct, Count(tasks, Done), |tasks|)
  {
    if |tasks| == 0 then 0
    else
      var done, total := Count(tasks, Done), |tasks|;
      var pct := (200 * done + total) / (2 * total);
      assert 2 * total * pct <= 200 * done + total < 2 * total * pct + 2 * total;
      assert 200 * done + total < 2 * total * 101 by {
        assert done <= total;
      }
      MulMonotone(2 * total, 101, pct);
      pct
  }

  /** For a positive factor, a product with a larger factor is larger. */
  lemma MulMonotone(k: int, a: int, b: int)
    requires k > 0
    requires k * b < k * a
    ensures b < a
  {
  }

  /** The rounding relation pins the percentage down: at most one value satisfies it. */
  lemma RoundingIsUnique(r1: int, r2: int, done: int, total: int)
    requires total > 0
    requires RoundsHalfUpTo(r1, done, total) && RoundsHalfUpTo(r2, done, total)
    ensures r1 == r2
  {
    if r1 < r2 {
      MulMonotone(2 * total, r2, r1 + 1);
    } else if r2 < r1 {
      MulMonotone(2 * total, r1, r2 + 1);
    }
  }

  lemma AllDoneIsHundred(tasks: seq<Task>)
    requires |tasks| > 0 && Count(tasks, Done) == |tasks|
    ensures CompletionPercentage(tasks) == 100
  {
    var n := |tasks|;
    assert RoundsHalfUpTo(100, n, n);
    RoundingIsUnique(CompletionPercentage(tasks), 100, n, n);
  }

  lemma NoneDoneIsZero(tasks: seq<Task>)
    requires Count(tasks, Done) == 0
    ensures CompletionPercentage(tasks) == 0
  {
    if |tasks| > 0 {
      RoundingIsUnique(CompletionPercentage(tasks), 0, 0, |tasks|);
    }
  }

  /** More tasks done out of the same total never lowers the percentage. */
  lemma RoundingMonotone(r1: int, r2: int, d1: int, d2: int, total: int)
    requires total > 0 && d1 <= d2
    requires RoundsHalfUpTo(r1, d1, total) && RoundsHalfUpTo(r2, d2, total)
    ensures r1 <= r2
  {
    if r2 < r1 {
      MulMonotone(2 * total, r1, r2 + 1);
    }
  }

  /** Moving any one task to Done, others fixed, never lowers the percentage. */
  lemma MarkingDoneNeverLowers(tasks: seq<Task>, i: nat, t: Task)
    requires i < |tasks| && t.status == Done
    ensures CompletionPercentage(tasks) <= CompletionPercentage(tasks[i := t])
  {
    CountUpdate(tasks, i, t, Done);
    RoundingMonotone(CompletionPercentage(tasks), CompletionPercentage(tasks[i := t]),
                     Count(tasks, Done), Count(tasks[i := t], Done), |tasks|);
  }

  /** Two of three done rounds 66.67 up to 67; two of four is 50. */
  lemma TwoOfThreeThenTwoOfFour(a: Task, b: Task, c: Task, d: Task)
    requires a.status == Done && b.status == Done && c.status == ToDo && d.status == Backlog
    ensures CompletionPercentage([a, b, c]) == 67
    ensures CompletionPercentage([a, b, c, d]) == 50
  {
    assert [a, b, c][..2] == [a, b] && [a, b][..1] == [a] && [a][..0] == [];
    assert [a, b, c, d][..3] == [a, b, c];
    assert WithStatus([a], Done) == [a];
    assert WithStatus([a, b], Done) == [a, b];
    assert Count([a, b, c], Done) == 2;
    assert Count([a, b, c, d], Done) == 2;
    RoundingIsUnique(CompletionPercentage([a, b, c]), 67, 2, 3);
    RoundingIsUnique(CompletionPercentage([a, b, c, d]), 50, 2, 4);
  }
}
