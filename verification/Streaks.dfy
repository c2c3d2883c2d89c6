/** The user_streaks row: RecordPost and RecordUnlock of
    backend/internal/repository/gamification_repo.go as updates of one row, and
    what the row means in terms of the user's whole history. */
module Streaks {
  import opened Basics

  /** One row of user_streaks (migration 003). `lastPost` is a day number, NULL until the first post. */
  datatype Streak = Streak(current: int, max: int, lastPost: Option<int>, posts: int, zones: int, unlocks: int)

  /** Column defaults; also what GetStreak returns when there is no row. */
  const ZERO: Streak := Streak(0, 0, None, 0, 0, 0)

  /** What happened to one user. `zones` is the zone count the database computes at a post. */
  datatype Event = Post(day: int, zones: nat) | Unlock

  function Max(a: int, b: int): int { if a >= b then a else b }

  /** The upsert of RecordPost. Comparing a NULL date falls through to the ELSE branch. */
  function RecordPost(row: Option<Streak>, today: int, zones: nat): Streak
  {
    match row
    case None => Streak(1, 1, Some(today), 1, zones, 0)
    case Some(s) =>
      var current :=
        if s.lastPost == Some(today) then s.current
        else if s.lastPost == Some(today - 1) then s.current + 1
        else 1;
      Streak(current, Max(s.max, current), Some(today), s.posts + 1, zones, s.unlocks)
  }

  /** The upsert of RecordUnlock. */
  function RecordUnlock(row: Option<Streak>): Streak
  {
    match row
    case None => ZERO.(unlocks := 1)
    case Some(s) => s.(unlocks := s.unlocks + 1)
  }

  function Record(row: Option<Streak>, e: Event): Streak
  {
    match e
    case Post(day, zones) => RecordPost(row, day, zones)
    case Unlock => RecordUnlock(row)
  }

  /** The row after a history, starting from no row or from a migrated row. */
  function RowAfter(start: Option<Streak>, h: seq<Event>): Option<Streak>
  {
    if h == [] then start
    else Some(Record(RowAfter(start, h[..|h| - 1]), h[|h| - 1]))
  }

  // ---- What the columns mean ------------------------------------------------

  function PostDays(h: seq<Event>): set<int>
  {
    set i | 0 <= i < |h| && h[i].Post? :: h[i].day
  }

  function PostCount(h: seq<Event>): nat
  {
    if h == [] then 0 else PostCount(h[..|h| - 1]) + if h[|h| - 1].Post? then 1 else 0
  }

  function UnlockCount(h: seq<Event>): nat
  {
    if h == [] then 0 else UnlockCount(h[..|h| - 1]) + if h[|h| - 1].Unlock? then 1 else 0
  }

  /** Posts come on non-decreasing days. */
  ghost predicate DaysInOrder(h: seq<Event>)
  {
    forall i, j :: 0 <= i < j < |h| && h[i].Post? && h[j].Post? ==> h[i].day <= h[j].day
  }

  /** The run of consecutive days of `days` ending at `d` has length exactly `n`. */
  ghost predicate RunEndingAt(days: set<int>, d: int, n: int)
  {
    n >= 0 && (forall x :: d - n < x <= d ==> x in days) && d - n !in days
  }

  /** `n` is the length of the longest run in `days`. */
  ghost predicate LongestRun(days: set<int>, n: int)
  {
    && (forall d, m :: RunEndingAt(days, d, m) ==> m <= n)
    && (exists d :: RunEndingAt(days, d, n))
  }

  ghost predicate LastDay(days: set<int>, d: int)
  {
    d in days && forall x :: x in days ==> x <= d
  }

  lemma RunIsUnique(days: set<int>, d: int, m: int, n: int)
    requires RunEndingAt(days, d, m) && RunEndingAt(days, d, n)
    ensures m == n
  {
    assert d - m !in days && d - n !in days;
  }

  /** Posting on day `d`, not before the last post day, extends or restarts the run. */
  lemma PostExtendsRun(days: set<int>, last: int, current: int, d: int)
    requires LastDay(days, last) && RunEndingAt(days, last, current) && last <= d
    ensures LastDay(days + {d}, d)
    ensures RunEndingAt(days + {d}, d, if last == d then current else if last == d - 1 then current + 1 else 1)
  {
    if last == d {
      assert days + {d} == days;
    } else if last < d - 1 {
      assert d - 1 !in days;
    } else {
      assert d - (current + 1) == last - current;
    }
  }

  /** The longest run after adding a new last day is the old longest or the run ending there. */
  lemma LongestAfterPost(days: set<int>, d: int, current: int, max: int)
    requires LongestRun(days, max)
    requires LastDay(days + {d}, d) && RunEndingAt(days + {d}, d, current) && current >= 1
    ensures LongestRun(days + {d}, Max(max, current))
  {
    var days' := days + {d};
    if d in days {
      assert days' == days;
    } else {
      forall e, m | RunEndingAt(days', e, m)
        ensures m <= Max(max, current)
      {
        if e == d {
          RunIsUnique(days', d, m, current);
        } else if m > 0 {
          assert e in days';
          assert RunEndingAt(days, e, m);
        }
      }
      if max > current {
        var e :| RunEndingAt(days, e, max);
        assert e in days;
        assert RunEndingAt(days', e, max);
      }
    }
  }

  lemma DaysOfExtension(h: seq<Event>, e: Event)
    ensures PostDays(h + [e]) == if e.Post? then PostDays(h) + {e.day} else PostDays(h)
  {
    var h' := h + [e];
    forall x | x in PostDays(h) ensures x in PostDays(h') {
      var i :| 0 <= i < |h| && h[i].Post? && h[i].day == x;
      assert h'[i] == h[i];
    }
    if e.Post? { assert h'[|h|].day == e.day; }
    forall x | x in PostDays(h') ensures x in PostDays(h) || (e.Post? && x == e.day) {
      var i :| 0 <= i < |h'| && h'[i].Post? && h'[i].day == x;
      if i < |h| { assert h[i] == h'[i]; }
    }
  }

  lemma DaysBefore(h: seq<Event>, e: Event)
    requires DaysInOrder(h + [e]) && e.Post?
    ensures forall x :: x in PostDays(h) ==> x <= e.day
  {
    forall x | x in PostDays(h) ensures x <= e.day {
      var i :| 0 <= i < |h| && h[i].Post? && h[i].day == x;
      assert (h + [e])[i] == h[i] && (h + [e])[|h|] == e;
    }
  }

  /** What a row says about the days posted on, and the counts. */
  ghost predicate Describes(s: Streak, days: set<int>, posts: int, unlocks: int)
  {
    && s.posts == posts
    && s.unlocks == unlocks
    && LongestRun(days, s.max)
    && match s.lastPost
       case None => days == {} && s.current == 0
       case Some(d) => LastDay(days, d) && RunEndingAt(days, d, s.current) && s.current >= 1
  }

  lemma EmptyDays(days: set<int>)
    requires days == {}
    ensures LongestRun(days, 0)
  {
    assert RunEndingAt(days, 0, 0);
    forall d, m | RunEndingAt(days, d, m) ensures m <= 0 {
      assert d !in days;
    }
  }

  lemma RecordKeepsMeaning(row: Option<Streak>, days: set<int>, posts: int, unlocks: int, e: Event)
    requires row.None? ==> days == {} && posts == 0 && unlocks == 0
    requires row.Some? ==> Describes(row.value, days, posts, unlocks)
    requires e.Post? ==> forall x :: x in days ==> x <= e.day
    ensures e.Post? ==> Describes(Record(row, e), days + {e.day}, posts + 1, unlocks)
    ensures e.Unlock? ==> Describes(Record(row, e), days, posts, unlocks + 1)
  {
    if row.None? { EmptyDays(days); }
    if e.Post? {
      var s := Record(row, e);
      var d := e.day;
      if row.Some? && row.value.lastPost.Some? {
        PostExtendsRun(days, row.value.lastPost.value, row.value.current, d);
      } else {
        assert RunEndingAt(days + {d}, d, 1);
      }
      LongestAfterPost(days, d, s.current, if row.Some? then row.value.max else 0);
    }
  }

  /** A row the streak code may start from: none, or one migration 003 seeded with
      a post count and no date. */
  ghost predicate FreshStart(start: Option<Streak>)
  {
    start.Some? ==> start.value == ZERO.(posts := start.value.posts)
  }

  /** Posts the start row already counts. */
  function Seeded(start: Option<Streak>): int { if start.Some? then start.value.posts else 0 }

  /** The row reached by `h` means what the history says. */
  ghost predicate RowMeans(start: Option<Streak>, h: seq<Event>)
  {
    match RowAfter(start, h)
    case None => h == [] && start.None?
    case Some(s) => Describes(s, PostDays(h), Seeded(start) + PostCount(h), UnlockCount(h))
  }

  lemma RowMeansStep(start: Option<Streak>, h: seq<Event>, e: Event)
    requires RowMeans(start, h) && DaysInOrder(h + [e])
    ensures RowMeans(start, h + [e])
  {
    hide Describes;
    var h' := h + [e];
    assert h'[..|h|] == h && h'[|h|] == e;
    var row := RowAfter(start, h);
    DaysOfExtension(h, e);
    if e.Post? { DaysBefore(h, e); }
    assert row.None? ==> PostDays(h) == {};
    hide PostDays;
    RecordKeepsMeaning(row, PostDays(h), Seeded(start) + PostCount(h), UnlockCount(h), e);
    assert RowAfter(start, h') == Some(Record(row, e));
  }

  /** For every history on non-decreasing days, unlocks mixed in anywhere: the row's current
      streak is the length of the consecutive-day run ending at the last post day, max_streak
      is the longest such run of the whole history, and the totals are the counts. */
  lemma {:induction false} StreakRefinement(start: Option<Streak>, h: seq<Event>)
    requires FreshStart(start) && DaysInOrder(h)
    ensures RowMeans(start, h)
  {
    if h == [] {
      EmptyDays(PostDays(h));
    } else {
      StreakRefinement(start, h[..|h| - 1]);
      assert h == h[..|h| - 1] + [h[|h| - 1]];
      RowMeansStep(start, h[..|h| - 1], h[|h| - 1]);
    }
  }

  /** The zone count is the one computed at the last post, and zero before the first. */
  function LastZones(start: Option<Streak>, h: seq<Event>): int
  {
    if h == [] then (if start.Some? then start.value.zones else 0)
    else if h[|h| - 1].Post? then h[|h| - 1].zones
    else LastZones(start, h[..|h| - 1])
  }

  lemma {:induction false} ZonesOfHistory(start: Option<Streak>, h: seq<Event>)
    requires RowAfter(start, h).Some?
    ensures RowAfter(start, h).value.zones == LastZones(start, h)
  {
    if h != [] && h[|h| - 1].Unlock? && RowAfter(start, h[..|h| - 1]).Some? {
      ZonesOfHistory(start, h[..|h| - 1]);
    } else if h != [] && h[|h| - 1].Unlock? {
      NoRowYet(start, h[..|h| - 1]);
    }
  }

  lemma NoRowYet(start: Option<Streak>, h: seq<Event>)
    requires RowAfter(start, h).None?
    ensures h == [] && start.None?
  {
  }

  // ---- Runs of at least k days ------------------------------------------------

  /** Some k consecutive days are all in `days`. */
  ghost predicate HasRunOf(days: set<int>, k: int)
  {
    exists d :: AllPosted(days, d, k)
  }

  ghost predicate AllPosted(days: set<int>, d: int, k: int)
  {
    forall x :: d - k < x <= d ==> x in days
  }

  /** Every block of posted days lies in a maximal run. */
  lemma {:induction false} MaximalRun(days: set<int>, d: int, k: int) returns (m: int)
    requires k >= 0 && AllPosted(days, d, k)
    ensures k <= m && RunEndingAt(days, d, m)
    decreases |set x | x in days && x <= d - k|
  {
    if d - k !in days {
      m := k;
    } else {
      var here, next := set x | x in days && x <= d - k, set x | x in days && x <= d - k - 1;
      assert here == next + {d - k};
      m := MaximalRun(days, d, k + 1);
    }
  }

  lemma LongestRunDecides(days: set<int>, n: int, k: int)
    requires LongestRun(days, n) && k >= 1
    ensures HasRunOf(days, k) <==> n >= k
  {
    if HasRunOf(days, k) {
      var d :| AllPosted(days, d, k);
      var m := MaximalRun(days, d, k);
    }
    if n >= k {
      var d :| RunEndingAt(days, d, n);
      assert AllPosted(days, d, k);
    }
  }
}
