/**
 * The dashboard's activity feed: the activities of all projects, newest
 * first, of which the first five are shown.
 */
module RecentActivity {
  import opened Types

  /** `projects.flatMap(p => p.activities)`. */
  function AllActivities(projects: seq<Project>): (all: seq<Activity>)
    ensures forall a :: a in all <==> exists p :: p in projects && a in p.activities
  {
    if projects == [] then []
    else
      var init := projects[..|projects| - 1];
      assert forall p :: p in projects <==> p in init || p == projects[|projects| - 1];
      AllActivities(init) + projects[|projects| - 1].activities
  }

  function Time(a: Activity): int
  {
    a.timestamp.millis
  }

  /** Newest first: no activity is newer than one before it. */
  predicate NewestFirst(l: seq<Activity>)
  {
    forall i, j :: 0 <= i < j < |l| ==> Time(l[i]) >= Time(l[j])
  }

  /** The activities of `l` at time `k`, in their order in `l`. */
  function At(l: seq<Activity>, k: int): (r: seq<Activity>)
    ensures forall x :: x in r <==> x in l && Time(x) == k
  {
    if l == [] then [] else (if Time(l[0]) == k then [l[0]] else []) + At(l[1..], k)
  }

  /** `x` placed before the first activity of `l` that is not newer than it. */
  function Insert(x: Activity, l: seq<Activity>): seq<Activity>
  {
    if l == [] then [x]
    else if Time(l[0]) <= Time(x) then [x] + l
    else [l[0]] + Insert(x, l[1..])
  }

  /**
   * `sort((a, b) => time(b) - time(a))`, a stable sort: an insertion sort
   * that places each activity ahead of the later ones with the same time.
   */
  function SortNewestFirst(l: seq<Activity>): seq<Activity>
  {
    if l == [] then [] else Insert(l[0], SortNewestFirst(l[1..]))
  }

  lemma {:induction false} InsertIsPermutation(x: Activity, l: seq<Activity>)
    ensures multiset(Insert(x, l)) == multiset(l) + multiset{x}
  {
    if l != [] && Time(l[0]) > Time(x) {
      InsertIsPermutation(x, l[1..]);
      assert l == [l[0]] + l[1..];
    }
  }

  lemma {:induction false} InsertKeepsOrder(x: Activity, l: seq<Activity>)
    requires NewestFirst(l)
    ensures NewestFirst(Insert(x, l))
  {
    if l != [] && Time(l[0]) > Time(x) {
      InsertKeepsOrder(x, l[1..]);
      InsertIsPermutation(x, l[1..]);
      var rest := Insert(x, l[1..]);
      forall j | 0 <= j < |rest|
        ensures Time(l[0]) >= Time(rest[j])
      {
        assert rest[j] in multiset(rest);
        assert rest[j] == x || rest[j] in l[1..];
      }
    }
  }

  /** Inserting `x` adds it ahead of the activities with its own time and leaves the other times alone. */
  lemma {:induction false} InsertAt(x: Activity, l: seq<Activity>, k: int)
    ensures At(Insert(x, l), k) == if Time(x) == k then [x] + At(l, k) else At(l, k)
  {
    if l == [] {
      AtCons(x, [], k);
    } else if Time(l[0]) <= Time(x) {
      AtCons(x, l, k);
    } else {
      var rest := Insert(x, l[1..]);
      InsertAt(x, l[1..], k);
      AtCons(l[0], rest, k);
      AtCons(l[0], l[1..], k);
      assert l == [l[0]] + l[1..];
    }
  }

  /** The activities at time `k` of a list with `y` in front. */
  lemma AtCons(y: Activity, l: seq<Activity>, k: int)
    ensures At([y] + l, k) == (if Time(y) == k then [y] else []) + At(l, k)
  {
    assert ([y] + l)[1..] == l;
  }

  /** The feed holds every activity exactly once. */
  lemma {:induction false} SortIsPermutation(l: seq<Activity>)
    ensures multiset(SortNewestFirst(l)) == multiset(l)
  {
    if l != [] {
      SortIsPermutation(l[1..]);
      InsertIsPermutation(l[0], SortNewestFirst(l[1..]));
      assert l == [l[0]] + l[1..];
    }
  }

  /** The feed is newest first. */
  lemma {:induction false} SortIsNewestFirst(l: seq<Activity>)
    ensures NewestFirst(SortNewestFirst(l))
  {
    if l != [] {
      SortIsNewestFirst(l[1..]);
      InsertKeepsOrder(l[0], SortNewestFirst(l[1..]));
    }
  }

  /** The sort is stable: activities with the same time keep their order. */
  lemma {:induction false} SortIsStable(l: seq<Activity>, k: int)
    ensures At(SortNewestFirst(l), k) == At(l, k)
  {
    if l != [] {
      SortIsStable(l[1..], k);
      InsertAt(l[0], SortNewestFirst(l[1..]), k);
    }
  }

  lemma AtOfNewestFirstTail(l: seq<Activity>, k: int)
    requires l != []
    ensures At(l[1..], k) == if Time(l[0]) == k then At(l, k)[1..] else At(l, k)
  {
  }

  lemma FirstIsNewest(l: seq<Activity>, x: Activity)
    requires NewestFirst(l) && x in l
    ensures Time(l[0]) >= Time(x)
  {
  }

  /** Two newest-first arrangements that agree at every time start with the same activity. */
  lemma SameFirst(a: seq<Activity>, b: seq<Activity>)
    requires a != [] && b != []
    requires NewestFirst(a) && NewestFirst(b)
    requires At(a, Time(a[0])) == At(b, Time(a[0]))
    requires At(a, Time(b[0])) == At(b, Time(b[0]))
    ensures a[0] == b[0]
  {
    var ka, kb := Time(a[0]), Time(b[0]);
    assert a[0] in At(a, ka);
    assert b[0] in At(b, kb);
    FirstIsNewest(b, a[0]);
    FirstIsNewest(a, b[0]);
    assert At(a, ka)[0] == a[0];
    assert At(b, kb)[0] == b[0];
  }

  /**
   * Newest first and stable determine the order: any two arrangements that
   * are both newest first and agree at every time are the same, so every
   * stable sort with this comparator yields the feed.
   */
  lemma {:induction false} NewestFirstStableIsUnique(a: seq<Activity>, b: seq<Activity>)
    requires NewestFirst(a) && NewestFirst(b)
    requires forall k :: At(a, k) == At(b, k)
    ensures a == b
    decreases |a|
  {
    if a == [] {
      NothingAtAnyTime(b);
    } else if b == [] {
      NothingAtAnyTime(a);
    } else {
      SameFirst(a, b);
      SameTails(a, b);
      NewestFirstStableIsUnique(a[1..], b[1..]);
      assert a == [a[0]] + a[1..] && b == [b[0]] + b[1..];
    }
  }

  lemma NothingAtAnyTime(l: seq<Activity>)
    requires forall k :: At(l, k) == []
    ensures l == []
  {
    if l != [] {
      HeadIsAtItsTime(l);
    }
  }

  lemma HeadIsAtItsTime(l: seq<Activity>)
    requires l != []
    ensures At(l, Time(l[0])) != []
  {
  }

  lemma SameTails(a: seq<Activity>, b: seq<Activity>)
    requires a != [] && b != [] && a[0] == b[0]
    requires forall k :: At(a, k) == At(b, k)
    ensures forall k :: At(a[1..], k) == At(b[1..], k)
  {
    forall k
      ensures At(a[1..], k) == At(b[1..], k)
    {
      AtOfNewestFirstTail(a, k);
      AtOfNewestFirstTail(b, k);
    }
  }

  /** `allActivities`. */
  function Feed(projects: seq<Project>): seq<Activity>
  {
    SortNewestFirst(AllActivities(projects))
  }

  /** `allActivities.slice(0, 5)`. */
  function Shown(feed: seq<Activity>): (shown: seq<Activity>)
    ensures |shown| == if |feed| < 5 then |feed| else 5
    ensures shown == feed[..|shown|]
  {
    if |feed| < 5 then feed else feed[..5]
  }

  /** The five shown are the newest: none of the hidden activities is newer than a shown one. */
  lemma ShownAreNewest(projects: seq<Project>)
    ensures var feed := Feed(projects);
      forall i, j :: 0 <= i < |Shown(feed)| <= j < |feed| ==> Time(feed[i]) >= Time(feed[j])
  {
    SortIsNewestFirst(AllActivities(projects));
  }

  lemma NoActivitiesAnywhere(projects: seq<Project>)
    ensures AllActivities(projects) == [] <==> forall p :: p in projects ==> p.activities == []
  {
    var all := AllActivities(projects);
    if all != [] {
      assert all[0] in all;
    }
    if p :| p in projects && p.activities != [] {
      assert p.activities[0] in all;
    }
  }

  /** What the card shows: the empty-state text, or the entries. */
  datatype View = Message(text: string) | Entries(items: seq<Activity>)

  function Render(projects: seq<Project>): (v: View)
    ensures v.Message? <==> forall p :: p in projects ==> p.activities == []
    ensures v.Message? ==> v.text == "No recent activity to display."
    ensures v.Entries? ==> v.items == Shown(Feed(projects)) && 1 <= |v.items| <= 5
  {
    var feed := Feed(projects);
    SortIsPermutation(AllActivities(projects));
    NoActivitiesAnywhere(projects);
    assert |feed| == 0 <==> AllActivities(projects) == [] by {
      assert |multiset(feed)| == |feed|;
    }
    if |feed| == 0 then Message("No recent activity to display.") else Entries(Shown(feed))
  }
}
