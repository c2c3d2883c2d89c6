/** Badge awards: CheckAndAwardBadges and its callers in the message service.
    First the serial service (every statement succeeds), then any interleaving of
    statements, any of which may fail. */
module Badges {
  import opened Basics
  import opened Streaks

  datatype Badge =
    | FirstPost
    | Explorer(level: nat)
    | StreakBadge(days: nat)
    | MysteryHunter(count: nat)
    | CapsuleCreator

  const EXPLORER_LEVELS: set<nat> := {5, 10, 25}
  const STREAK_LEVELS: set<nat> := {3, 7, 30}
  const HUNTER_LEVELS: set<nat> := {5, 25}

  /** The badges CheckAndAwardBadges awards on the row it read. */
  predicate Earns(s: Streak, b: Badge)
  {
    match b
    case FirstPost => s.posts >= 1
    case Explorer(k) => k in EXPLORER_LEVELS && s.zones >= k
    case StreakBadge(k) => k in STREAK_LEVELS && s.current >= k
    case MysteryHunter(k) => k in HUNTER_LEVELS && s.unlocks >= k
    case CapsuleCreator => false
  }

  const CHECKED: set<Badge> := {
    FirstPost, Explorer(5), Explorer(10), Explorer(25),
    StreakBadge(3), StreakBadge(7), StreakBadge(30), MysteryHunter(5), MysteryHunter(25)}

  function Earned(s: Streak): set<Badge>
  {
    set b | b in CHECKED && Earns(s, b)
  }

  lemma EarnedIffEarns(s: Streak, b: Badge)
    ensures b in Earned(s) <==> Earns(s, b)
  {
  }

  // ---- The repository object -----------------------------------------------

  function RowOf(rows: map<User, Streak>, u: User): Option<Streak>
  {
    if u in rows then Some(rows[u]) else None
  }

  /** GetStreak: a missing row reads as zeros. */
  function GetStreak(rows: map<User, Streak>, u: User): Streak
  {
    if u in rows then rows[u] else ZERO
  }

  /** Tables user_streaks and user_badges (unique per user and badge). */
  class GamificationRepo {
    var rows: map<User, Streak>
    var badges: set<(User, Badge)>

    constructor ()
      ensures rows == map[] && badges == {}
    {
      rows := map[];
      badges := {};
    }

    method RecordPost(u: User, today: int, zones: nat)
      modifies this`rows
      ensures rows == old(rows)[u := Record(RowOf(old(rows), u), Post(today, zones))]
    {
      if u !in rows {
        rows := rows[u := Streak(1, 1, Some(today), 1, zones, 0)];
      } else {
        var s := rows[u];
        var current := 1;
        if s.lastPost == Some(today) {
          current := s.current;
        } else if s.lastPost == Some(today - 1) {
          current := s.current + 1;
        }
        rows := rows[u := Streak(current, Max(s.max, current), Some(today), s.posts + 1, zones, s.unlocks)];
      }
    }

    method RecordUnlock(u: User)
      modifies this`rows
      ensures rows == old(rows)[u := Record(RowOf(old(rows), u), Unlock)]
    {
      if u !in rows {
        rows := rows[u := ZERO.(unlocks := 1)];
      } else {
        rows := rows[u := rows[u].(unlocks := rows[u].unlocks + 1)];
      }
    }

    method AwardBadge(u: User, b: Badge)
      modifies this`badges
      ensures badges == old(badges) + {(u, b)}
    {
      badges := badges + {(u, b)};
    }

    method AwardExplorer(u: User, s: Streak)
      modifies this`badges
      ensures forall v, b :: (v, b) in badges <==> (v, b) in old(badges) || (v == u && b.Explorer? && Earns(s, b))
    {
      if s.zones >= 5 { AwardBadge(u, Explorer(5)); }
      if s.zones >= 10 { AwardBadge(u, Explorer(10)); }
      if s.zones >= 25 { AwardBadge(u, Explorer(25)); }
    }

    method AwardStreak(u: User, s: Streak)
      modifies this`badges
      ensures forall v, b :: (v, b) in badges <==> (v, b) in old(badges) || (v == u && b.StreakBadge? && Earns(s, b))
    {
      if s.current >= 3 { AwardBadge(u, StreakBadge(3)); }
      if s.current >= 7 { AwardBadge(u, StreakBadge(7)); }
      if s.current >= 30 { AwardBadge(u, StreakBadge(30)); }
    }

    method AwardHunter(u: User, s: Streak)
      modifies this`badges
      ensures forall v, b :: (v, b) in badges <==> (v, b) in old(badges) || (v == u && b.MysteryHunter? && Earns(s, b))
    {
      if s.unlocks >= 5 { AwardBadge(u, MysteryHunter(5)); }
      if s.unlocks >= 25 { AwardBadge(u, MysteryHunter(25)); }
    }

    /** The sequence of conditional awards adds exactly the badges the row earns. */
    method CheckAndAwardBadges(u: User)
      modifies this`badges
      ensures forall v, b :: (v, b) in badges <==> (v, b) in old(badges) || (v == u && Earns(GetStreak(rows, u), b))
    {
      var s := GetStreak(rows, u);
      if s.posts >= 1 { AwardBadge(u, FirstPost); }
      AwardExplorer(u, s);
      AwardStreak(u, s);
      AwardHunter(u, s);
    }

    /** What Create does after the insert: streak, badges, capsule badge. */
    method AfterCreate(u: User, today: int, zones: nat, capsule: bool)
      modifies this
      ensures Store(rows, badges) == Serve(Store(old(rows), old(badges)), Op(u, Post(today, zones), capsule))
    {
      RecordPost(u, today, zones);
      CheckAndAwardBadges(u);
      if capsule {
        AwardBadge(u, CapsuleCreator);
      }
      ServedBadges(Store(old(rows), old(badges)), Op(u, Post(today, zones), capsule), badges);
    }

    /** What UnlockMystery does after a new unlock. */
    method AfterUnlock(u: User)
      modifies this
      ensures Store(rows, badges) == Serve(Store(old(rows), old(badges)), Op(u, Unlock, false))
    {
      RecordUnlock(u);
      CheckAndAwardBadges(u);
      ServedBadges(Store(old(rows), old(badges)), Op(u, Unlock, false), badges);
    }
  }

  // ---- Serial runs: badges agree with the whole history -----------------------

  datatype Store = Store(rows: map<User, Streak>, badges: set<(User, Badge)>)

  /** One create (`capsule` for capsule messages) or new unlock, with its badge check. */
  datatype Op = Op(user: User, event: Event, capsule: bool)

  function Serve(st: Store, op: Op): Store
  {
    var row := Record(RowOf(st.rows, op.user), op.event);
    Store(st.rows[op.user := row],
          st.badges + (set b | b in Earned(row) :: (op.user, b))
          + (if op.capsule then {(op.user, CapsuleCreator)} else {}))
  }

  lemma ServedBadges(st: Store, op: Op, badges: set<(User, Badge)>)
    requires forall v, b :: (v, b) in badges <==>
               || (v, b) in st.badges
               || (v == op.user && Earns(Record(RowOf(st.rows, v), op.event), b))
               || (op.capsule && v == op.user && b == CapsuleCreator)
    ensures badges == Serve(st, op).badges
  {
    forall p: (User, Badge) ensures p in badges <==> p in Serve(st, op).badges {
      assert p == (p.0, p.1);
      EarnedIffEarns(Record(RowOf(st.rows, op.user), op.event), p.1);
    }
  }

  function SerialRun(ops: seq<Op>): Store
  {
    if ops == [] then Store(map[], {}) else Serve(SerialRun(ops[..|ops| - 1]), ops[|ops| - 1])
  }

  /** What happened to one user. */
  function History(ops: seq<Op>, u: User): seq<Event>
  {
    if ops == [] then []
    else History(ops[..|ops| - 1], u) + if ops[|ops| - 1].user == u then [ops[|ops| - 1].event] else []
  }

  lemma {:induction false} RowIsHistory(ops: seq<Op>, u: User)
    ensures RowOf(SerialRun(ops).rows, u) == RowAfter(None, History(ops, u))
  {
    if ops != [] {
      RowIsHistory(ops[..|ops| - 1], u);
      var op := ops[|ops| - 1];
      if op.user == u {
        var h := History(ops[..|ops| - 1], u);
        assert History(ops, u) == h + [op.event];
        assert (h + [op.event])[..|h|] == h;
      } else {
        assert History(ops, u) == History(ops[..|ops| - 1], u);
      }
    }
  }

  /** The badges a row's record columns call for, streaks judged by the longest one. */
  predicate Deserves(s: Streak, b: Badge)
  {
    match b
    case FirstPost => s.posts >= 1
    case StreakBadge(k) => k in STREAK_LEVELS && s.max >= k
    case MysteryHunter(k) => k in HUNTER_LEVELS && s.unlocks >= k
    case Explorer(_) => false
    case CapsuleCreator => false
  }

  predicate Tracked(b: Badge) { b.FirstPost? || b.StreakBadge? || b.MysteryHunter? }

  /** A recorded event raises the longest streak only to the current one, and never lowers a record. */
  lemma RecordRaises(row: Option<Streak>, e: Event, b: Badge)
    requires Tracked(b) && (row.Some? ==> row.value.current <= row.value.max)
    ensures var before := if row.Some? then row.value else ZERO;
            var after := Record(row, e);
            && (Deserves(before, b) || Earns(after, b) <==> Deserves(after, b))
            && after.current <= after.max
            && before.max <= after.max && before.posts <= after.posts && before.unlocks <= after.unlocks
  {
  }

  lemma ServeBadge(st: Store, op: Op, u: User, b: Badge)
    requires b != CapsuleCreator
    ensures (u, b) in Serve(st, op).badges <==>
            (u, b) in st.badges || (u == op.user && Earns(Record(RowOf(st.rows, u), op.event), b))
  {
    EarnedIffEarns(Record(RowOf(st.rows, u), op.event), b);
  }

  /** Although streak badges are checked on the current streak only, after every
      operation and its check the tracked badges agree with the record columns. */
  lemma {:induction false} BadgesAgreeWithRecords(ops: seq<Op>, u: User, b: Badge)
    requires Tracked(b)
    ensures (u, b) in SerialRun(ops).badges <==> Deserves(GetStreak(SerialRun(ops).rows, u), b)
    ensures GetStreak(SerialRun(ops).rows, u).current <= GetStreak(SerialRun(ops).rows, u).max
  {
    if ops != [] {
      var st, op := SerialRun(ops[..|ops| - 1]), ops[|ops| - 1];
      BadgesAgreeWithRecords(ops[..|ops| - 1], u, b);
      ServeBadge(st, op, u, b);
      RecordRaises(RowOf(st.rows, u), op.event, b);
    }
  }

  /** Combined with what the row means: a user holds streak_k exactly when the posting history
      contains k consecutive days, mystery_hunter_k exactly when it contains k unlocks, and
      first_post exactly when it contains a post. */
  lemma BadgesAgreeWithHistory(ops: seq<Op>, u: User, k: nat)
    requires DaysInOrder(History(ops, u))
    ensures k == 3 || k == 7 || k == 30 ==>
              ((u, StreakBadge(k)) in SerialRun(ops).badges <==> HasRunOf(PostDays(History(ops, u)), k))
    ensures k == 5 || k == 25 ==>
              ((u, MysteryHunter(k)) in SerialRun(ops).badges <==> UnlockCount(History(ops, u)) >= k)
    ensures (u, FirstPost) in SerialRun(ops).badges <==> PostCount(History(ops, u)) >= 1
  {
    var h := History(ops, u);
    RowIsHistory(ops, u);
    StreakRefinement(None, h);
    BadgesAgreeWithRecords(ops, u, StreakBadge(k));
    BadgesAgreeWithRecords(ops, u, MysteryHunter(k));
    BadgesAgreeWithRecords(ops, u, FirstPost);
    var s := GetStreak(SerialRun(ops).rows, u);
    if u !in SerialRun(ops).rows {
      EmptyDays(PostDays(h));
    }
    if k in STREAK_LEVELS {
      LongestRunDecides(PostDays(h), s.max, k);
    }
  }

  /** capsule_creator is held exactly by those who have made a capsule. */
  lemma {:induction false} CapsuleOfHistory(ops: seq<Op>, u: User)
    ensures (u, CapsuleCreator) in SerialRun(ops).badges <==> exists i :: 0 <= i < |ops| && ops[i].user == u && ops[i].capsule
  {
    if ops != [] {
      var n := |ops| - 1;
      CapsuleOfHistory(ops[..n], u);
      EarnedIffEarns(Record(RowOf(SerialRun(ops[..n]).rows, ops[n].user), ops[n].event), CapsuleCreator);
      assert forall i :: 0 <= i < n ==> ops[..n][i] == ops[i];
      if i :| 0 <= i < n && ops[..n][i].user == u && ops[..n][i].capsule {
        assert ops[i].user == u;
      }
    }
  }

  /** No badge beyond those of the check and the capsule's is ever held. */
  lemma {:induction false} OnlyListedBadges(ops: seq<Op>, u: User, b: Badge)
    requires (u, b) in SerialRun(ops).badges
    ensures match b
            case FirstPost => true
            case Explorer(k) => k == 5 || k == 10 || k == 25
            case StreakBadge(k) => k == 3 || k == 7 || k == 30
            case MysteryHunter(k) => k == 5 || k == 25
            case CapsuleCreator => true
  {
    if ops != [] {
      var n := |ops| - 1;
      if (u, b) in SerialRun(ops[..n]).badges {
        OnlyListedBadges(ops[..n], u, b);
      } else if b != CapsuleCreator {
        ServeBadge(SerialRun(ops[..n]), ops[n], u, b);
      }
    }
  }

  lemma {:induction false} ExplorerOfHistory(ops: seq<Op>, u: User, k: nat)
    requires k == 5 || k == 10 || k == 25
    ensures GetStreak(SerialRun(ops).rows, u).zones >= k ==> (u, Explorer(k)) in SerialRun(ops).badges
    ensures (u, Explorer(k)) in SerialRun(ops).badges <==>
            exists i :: 0 <= i < |ops| && ops[i].user == u && ops[i].event.Post? && ops[i].event.zones >= k
  {
    if ops != [] {
      var n := |ops| - 1;
      var st, op := SerialRun(ops[..n]), ops[n];
      ExplorerOfHistory(ops[..n], u, k);
      ServeBadge(st, op, u, Explorer(k));
      assert forall i :: 0 <= i < n ==> ops[..n][i] == ops[i];
      if i :| 0 <= i < n && ops[..n][i].user == u && ops[..n][i].event.Post? && ops[..n][i].event.zones >= k {
        assert ops[i].user == u;
      }
    }
  }

  // ---- Interleaved runs with failing statements ---------------------------------

  /** A create or unlock in progress: it has recorded (or failed to) and will check the row, then
      insert the awards it found. */
  datatype Call = Call(user: User, unread: bool, todo: set<Badge>)

  /** `errors` are the users for whom reading the row or inserting an award has failed. */
  datatype State = State(rows: map<User, Streak>, badges: set<(User, Badge)>, calls: map<nat, Call>, errors: set<User>)

  /** A failed record changes nothing and the check follows all the same; a failed read counts as a
      zero row (GetStreak); a failed award is skipped. */
  datatype Step =
    | Recorded(call: nat, user: User, event: Event)
    | RecordFails(call: nat, user: User)
    | Read(call: nat)
    | ReadFails(call: nat)
    | Award(call: nat, badge: Badge)
    | AwardFails(call: nat, badge: Badge)
    | AwardCapsule(user: User)

  predicate Enabled(st: State, step: Step)
  {
    match step
    case Recorded(t, _, _) => t !in st.calls
    case RecordFails(t, _) => t !in st.calls
    case Read(t) => t in st.calls && st.calls[t].unread
    case ReadFails(t) => t in st.calls && st.calls[t].unread
    case Award(t, b) => t in st.calls && b in st.calls[t].todo
    case AwardFails(t, b) => t in st.calls && b in st.calls[t].todo
    case AwardCapsule(_) => true
  }

  function Next(st: State, step: Step): State
    requires Enabled(st, step)
  {
    match step
    case Recorded(t, u, e) =>
      st.(rows := st.rows[u := Record(RowOf(st.rows, u), e)], calls := st.calls[t := Call(u, true, {})])
    case RecordFails(t, u) => st.(calls := st.calls[t := Call(u, true, {})])
    case Read(t) =>
      var u := st.calls[t].user;
      st.(calls := st.calls[t := Call(u, false, Earned(GetStreak(st.rows, u)))])
    case ReadFails(t) =>
      var u := st.calls[t].user;
      st.(calls := st.calls[t := Call(u, false, Earned(ZERO))], errors := st.errors + {u})
    case Award(t, b) =>
      var c := st.calls[t];
      st.(badges := st.badges + {(c.user, b)}, calls := st.calls[t := c.(todo := c.todo - {b})])
    case AwardFails(t, b) =>
      var c := st.calls[t];
      st.(calls := st.calls[t := c.(todo := c.todo - {b})], errors := st.errors + {c.user})
    case AwardCapsule(u) => st.(badges := st.badges + {(u, CapsuleCreator)})
  }

  const NOTHING: State := State(map[], {}, map[], {})

  /** The states a run of enabled steps from the empty store passes through. */
  ghost predicate Run(states: seq<State>, steps: seq<Step>)
  {
    && |states| == |steps| + 1
    && states[0] == NOTHING
    && forall i {:trigger steps[i]} :: 0 <= i < |steps| ==>
         Enabled(states[i], steps[i]) && states[i + 1] == Next(states[i], steps[i])
  }

  lemma RunStep(states: seq<State>, steps: seq<Step>, n: nat)
    requires Run(states, steps) && n < |steps|
    ensures |states| == |steps| + 1 && Enabled(states[n], steps[n]) && states[n + 1] == Next(states[n], steps[n])
  {
    hide Next;
    hide Enabled;
  }

  /** What each statement does to a call: recording, or failing to, opens it with its check still to
      come; the check reads once; each award is inserted or given up once. Failures touch no table. */
  lemma StatementsAct(st: State, step: Step)
    requires Enabled(st, step)
    ensures var st' := Next(st, step);
            match step
            case Recorded(t, u, e) => t !in st.calls && t in st'.calls && st'.calls[t] == Call(u, true, {}) && st'.badges == st.badges
            case RecordFails(t, u) =>
              t !in st.calls && t in st'.calls && st'.calls[t] == Call(u, true, {}) && st'.rows == st.rows && st'.badges == st.badges
            case Read(t) => st.calls[t].unread && t in st'.calls && !st'.calls[t].unread && st'.badges == st.badges && st'.rows == st.rows
            case ReadFails(t) =>
              && st.calls[t].unread && t in st'.calls && !st'.calls[t].unread && st'.calls[t].todo == {}
              && st'.rows == st.rows && st'.badges == st.badges
            case Award(t, b) => (st.calls[t].user, b) in st'.badges && t in st'.calls && st'.calls[t].todo == st.calls[t].todo - {b}
            case AwardFails(t, b) =>
              && b in st.calls[t].todo && t in st'.calls && st'.calls[t].todo == st.calls[t].todo - {b}
              && st'.rows == st.rows && st'.badges == st.badges
            case AwardCapsule(u) => st'.badges == st.badges + {(u, CapsuleCreator)} && st'.rows == st.rows
  {
    assert Earned(ZERO) == {} by {
      forall b ensures b !in Earned(ZERO) { EarnedIffEarns(ZERO, b); }
    }
  }

  /** Every tracked badge held, or about to be inserted, is deserved by the present row,
      and the longest streak bounds the current one. */
  ghost predicate Deserved(st: State)
  {
    && (forall u, b :: (u, b) in st.badges && Tracked(b) ==> Deserves(GetStreak(st.rows, u), b))
    && (forall t, b :: t in st.calls && b in st.calls[t].todo && Tracked(b) ==> Deserves(GetStreak(st.rows, st.calls[t].user), b))
    && (forall u :: u in st.rows ==> st.rows[u].current <= st.rows[u].max)
  }

  lemma RecordedKeepsDeserved(st: State, t: nat, u: User, e: Event)
    requires Enabled(st, Recorded(t, u, e)) && Deserved(st)
    ensures Deserved(Next(st, Recorded(t, u, e)))
  {
    var st' := Next(st, Recorded(t, u, e));
    RecordRaises(RowOf(st.rows, u), e, FirstPost);
    forall v: User, b | Tracked(b) && Deserves(GetStreak(st.rows, v), b)
      ensures Deserves(GetStreak(st'.rows, v), b)
    {
      RecordRaises(RowOf(st.rows, v), e, b);
    }
    hide Deserves;
  }

  lemma ReadFindsDeserved(s: Streak, b: Badge)
    requires b in Earned(s) && Tracked(b) && s.current <= s.max
    ensures Deserves(s, b)
  {
  }

  lemma StepKeepsDeserved(st: State, step: Step)
    requires Enabled(st, step) && Deserved(st)
    ensures Deserved(Next(st, step))
  {
    match step
    case Recorded(t, u, e) => RecordedKeepsDeserved(st, t, u, e);
    case Read(t) =>
      var s := GetStreak(st.rows, st.calls[t].user);
      forall b | b in Earned(s) && Tracked(b) ensures Deserves(s, b) {
        ReadFindsDeserved(s, b);
      }
    case _ =>
  }

  /** With concurrent calls and failing statements, in every run a tracked badge is only ever
      held by a user whose recorded longest streak, unlock or post count reaches its level. */
  lemma {:induction false} BadgesNeverUndeserved(states: seq<State>, steps: seq<Step>, i: nat, u: User, b: Badge)
    requires Run(states, steps) && i < |states|
    requires (u, b) in states[i].badges && Tracked(b)
    ensures Deserves(GetStreak(states[i].rows, u), b)
  {
    RunKeepsDeserved(states, steps, i);
  }

  lemma {:induction false} RunKeepsDeserved(states: seq<State>, steps: seq<Step>, i: nat)
    requires Run(states, steps) && i < |states|
    ensures Deserved(states[i])
  {
    if i > 0 {
      RunKeepsDeserved(states, steps, i - 1);
      RunStep(states, steps, i - 1);
      StepKeepsDeserved(states[i - 1], steps[i - 1]);
    }
  }

  // ---- Interleaved runs once all calls are over ---------------------------------------

  /** A call of `u` that may still award `b`. */
  predicate MayAward(st: State, t: nat, u: User, b: Badge)
  {
    t in st.calls && st.calls[t].user == u && (st.calls[t].unread || b in st.calls[t].todo)
  }

  /** Every call of the user is over. */
  ghost predicate Settled(st: State, u: User)
  {
    forall t :: t in st.calls && st.calls[t].user == u ==> !st.calls[t].unread && st.calls[t].todo == {}
  }

  /** Badges judged by counts that never fall. */
  predicate Counting(b: Badge) { b.FirstPost? || b.MysteryHunter? }

  ghost predicate Covered(st: State, u: User, b: Badge)
  {
    u in st.errors || (u, b) in st.badges || exists t :: MayAward(st, t, u, b)
  }

  lemma CoveredStep(st: State, step: Step, u: User, b: Badge)
    requires Enabled(st, step) && Covered(st, u, b)
    ensures Covered(Next(st, step), u, b) || (step.Read? && !Earns(GetStreak(st.rows, u), b))
  {
    var st' := Next(st, step);
    if t :| MayAward(st, t, u, b) {
      EarnedIffEarns(GetStreak(st.rows, u), b);
      assert t in st'.calls && st'.calls[t].user == u;
      assert MayAward(st', t, u, b) || (u, b) in st'.badges || u in st'.errors || step.Read?;
    }
  }

  /** While a counting badge is deserved, a call is on its way to award it, unless it is held. */
  lemma {:induction false} DeservedIsCovered(states: seq<State>, steps: seq<Step>, i: nat, u: User, b: Badge)
    requires Run(states, steps) && i < |states| && Counting(b) && Deserves(GetStreak(states[i].rows, u), b)
    ensures Covered(states[i], u, b)
  {
    if i > 0 {
      RunStep(states, steps, i - 1);
      var st, step := states[i - 1], steps[i - 1];
      if step.Recorded? && step.user == u {
        assert MayAward(states[i], step.call, u, b);
      } else {
        assert GetStreak(states[i].rows, u) == GetStreak(st.rows, u);
        DeservedIsCovered(states, steps, i - 1, u, b);
        CoveredStep(st, step, u, b);
      }
    }
  }

  /** In every interleaving, once all calls of a user are over and none of its reads or awards failed,
      first_post and mystery_hunter_k are held if and only if the records reach their level. */
  lemma CountingBadgesSettle(states: seq<State>, steps: seq<Step>, i: nat, u: User, b: Badge)
    requires Run(states, steps) && i < |states| && Counting(b) && Settled(states[i], u) && u !in states[i].errors
    ensures (u, b) in states[i].badges <==> Deserves(GetStreak(states[i].rows, u), b)
  {
    if (u, b) in states[i].badges {
      BadgesNeverUndeserved(states, steps, i, u, b);
    }
    if Deserves(GetStreak(states[i].rows, u), b) {
      DeservedIsCovered(states, steps, i, u, b);
    }
  }

  /** Step `j` is a check of user `u` that finds badge `b` earned. */
  ghost predicate SeenAt(states: seq<State>, steps: seq<Step>, j: int, u: User, b: Badge)
    requires |states| == |steps| + 1
  {
    && 0 <= j < |steps| && steps[j].Read? && steps[j].call in states[j].calls
    && states[j].calls[steps[j].call].user == u && Earns(GetStreak(states[j].rows, u), b)
  }

  /** Held, or found by a check and about to be inserted. */
  ghost predicate OnItsWay(st: State, u: User, b: Badge)
  {
    (u, b) in st.badges || exists t :: t in st.calls && st.calls[t].user == u && b in st.calls[t].todo
  }

  /** Whatever is held, or about to be inserted, was seen earned by an earlier check. */
  lemma {:induction false} HeldWasSeen(states: seq<State>, steps: seq<Step>, i: nat, u: User, b: Badge)
    requires Run(states, steps) && i < |states| && b != CapsuleCreator
    requires OnItsWay(states[i], u, b)
    ensures exists j :: 0 <= j < i && SeenAt(states, steps, j, u, b)
  {
    assert i > 0;
    RunStep(states, steps, i - 1);
    var st, step := states[i - 1], steps[i - 1];
    if step.Read? && st.calls[step.call].user == u && b in Earned(GetStreak(st.rows, u)) {
      EarnedIffEarns(GetStreak(st.rows, u), b);
      assert SeenAt(states, steps, i - 1, u, b);
    } else {
      EarnedIffEarns(ZERO, b);
      HeldBefore(st, step, u, b);
      HeldWasSeen(states, steps, i - 1, u, b);
    }
  }

  lemma HeldBefore(st: State, step: Step, u: User, b: Badge)
    requires Enabled(st, step) && b != CapsuleCreator && !(step.Read? && st.calls[step.call].user == u && b in Earned(GetStreak(st.rows, u)))
    requires OnItsWay(Next(st, step), u, b)
    ensures OnItsWay(st, u, b)
  {
    var st' := Next(st, step);
    assert Earned(ZERO) == {};
    if (u, b) !in st'.badges {
      var t :| t in st'.calls && st'.calls[t].user == u && b in st'.calls[t].todo;
      assert t in st.calls && b in st.calls[t].todo;
    } else if (u, b) !in st.badges {
      assert step.Award? && st.calls[step.call].user == u && step.badge == b;
    }
  }

  /** What a check saw earned stays on its way, or held. */
  lemma {:induction false} SeenIsCovered(states: seq<State>, steps: seq<Step>, j: nat, i: nat, u: User, b: Badge)
    requires Run(states, steps) && j < i < |states| && SeenAt(states, steps, j, u, b)
    ensures u in states[i].errors || OnItsWay(states[i], u, b)
    decreases i
  {
    RunStep(states, steps, i - 1);
    var st, step := states[i - 1], steps[i - 1];
    if j == i - 1 {
      EarnedIffEarns(GetStreak(st.rows, u), b);
      assert b in states[i].calls[step.call].todo;
    } else {
      SeenIsCovered(states, steps, j, i - 1, u, b);
      UnreadHoldNothing(states, steps, i - 1);
      StaysOnItsWay(st, step, u, b);
    }
  }

  /** A call that has read keeps its awards until they are inserted or fail. */
  lemma StaysOnItsWay(st: State, step: Step, u: User, b: Badge)
    requires Enabled(st, step) && (u in st.errors || OnItsWay(st, u, b))
    requires forall t :: t in st.calls && st.calls[t].unread ==> st.calls[t].todo == {}
    ensures u in Next(st, step).errors || OnItsWay(Next(st, step), u, b)
  {
    var st' := Next(st, step);
    if t :| t in st.calls && st.calls[t].user == u && b in st.calls[t].todo {
      assert t in st'.calls && st'.calls[t].user == u;
      assert b in st'.calls[t].todo || (u, b) in st'.badges || u in st'.errors;
    }
  }

  lemma {:induction false} UnreadHoldNothing(states: seq<State>, steps: seq<Step>, i: nat)
    requires Run(states, steps) && i < |states|
    ensures forall t :: t in states[i].calls && states[i].calls[t].unread ==> states[i].calls[t].todo == {}
  {
    if i > 0 {
      UnreadHoldNothing(states, steps, i - 1);
      RunStep(states, steps, i - 1);
    }
  }

  /** In every interleaving, once all calls of a user are over and none of its reads or awards failed,
      a badge of the check is held if and only if some check of the user read a row that earned it: a
      streak badge is lost exactly when every check reads before the streak is long enough or after
      it was reset. */
  lemma SettledExactly(states: seq<State>, steps: seq<Step>, i: nat, u: User, b: Badge)
    requires Run(states, steps) && i < |states| && b != CapsuleCreator && Settled(states[i], u) && u !in states[i].errors
    ensures (u, b) in states[i].badges <==> exists j :: 0 <= j < i && SeenAt(states, steps, j, u, b)
  {
    if (u, b) in states[i].badges {
      HeldWasSeen(states, steps, i, u, b);
    }
    if j :| 0 <= j < i && SeenAt(states, steps, j, u, b) {
      SeenIsCovered(states, steps, j, i, u, b);
    }
  }

  // ---- A lost streak badge ----------------------------------------------------------------

  const SOMEONE: User := "someone"
  const WAITING: Call := Call(SOMEONE, true, {})
  const FOUND: Call := Call(SOMEONE, false, {FirstPost})
  const DONE: Call := Call(SOMEONE, false, {})

  /** The row after posts on days 1, 2, 3 and 5. */
  const RESET: Streak := Streak(1, 3, Some(5), 4, 1, 0)

  function Posted(row: Streak, calls: map<nat, Call>): State { State(map[SOMEONE := row], {}, calls, {}) }

  function Awarded(calls: map<nat, Call>): State { State(map[SOMEONE := RESET], {(SOMEONE, FirstPost)}, calls, {}) }

  ghost predicate Leads(s: State, step: Step, s': State) { Enabled(s, step) && s' == Next(s, step) }

  lemma RunOn(states: seq<State>, steps: seq<Step>, step: Step, s': State)
    requires Run(states, steps) && states != [] && Leads(states[|states| - 1], step, s')
    ensures Run(states + [s'], steps + [step])
  {
    hide Next;
    hide Enabled;
    var all, path := states + [s'], steps + [step];
    assert all[0] == states[0];
    forall i {:trigger path[i]} | 0 <= i < |path|
      ensures Enabled(all[i], path[i]) && all[i + 1] == Next(all[i], path[i])
    {
      if i < |steps| { assert path[i] == steps[i] && all[i] == states[i] && all[i + 1] == states[i + 1]; }
    }
  }

  lemma RunOnFour(states: seq<State>, steps: seq<Step>, a: Step, s1: State, b: Step, s2: State, c: Step, s3: State, d: Step, s4: State)
    requires Run(states, steps) && states != []
    requires Leads(states[|states| - 1], a, s1) && Leads(s1, b, s2) && Leads(s2, c, s3) && Leads(s3, d, s4)
    ensures Run(states + [s1, s2, s3, s4], steps + [a, b, c, d])
  {
    hide Leads;
    hide Run;
    RunOn(states, steps, a, s1);
    RunOn(states + [s1], steps + [a], b, s2);
    RunOn(states + [s1] + [s2], steps + [a] + [b], c, s3);
    RunOn(states + [s1] + [s2] + [s3], steps + [a] + [b] + [c], d, s4);
    assert states + [s1] + [s2] + [s3] + [s4] == states + [s1, s2, s3, s4];
    assert steps + [a] + [b] + [c] + [d] == steps + [a, b, c, d];
  }

  /** Four posts are recorded before any of their checks reads. */
  lemma PostsFirst()
    ensures Leads(NOTHING, Recorded(0, SOMEONE, Post(1, 1)), Posted(Streak(1, 1, Some(1), 1, 1, 0), map[0 := WAITING]))
    ensures Leads(Posted(Streak(1, 1, Some(1), 1, 1, 0), map[0 := WAITING]), Recorded(1, SOMEONE, Post(2, 1)),
                  Posted(Streak(2, 2, Some(2), 2, 1, 0), map[0 := WAITING, 1 := WAITING]))
    ensures Leads(Posted(Streak(2, 2, Some(2), 2, 1, 0), map[0 := WAITING, 1 := WAITING]), Recorded(2, SOMEONE, Post(3, 1)),
                  Posted(Streak(3, 3, Some(3), 3, 1, 0), map[0 := WAITING, 1 := WAITING, 2 := WAITING]))
    ensures Leads(Posted(Streak(3, 3, Some(3), 3, 1, 0), map[0 := WAITING, 1 := WAITING, 2 := WAITING]),
                  Recorded(3, SOMEONE, Post(5, 1)),
                  Posted(RESET, map[0 := WAITING, 1 := WAITING, 2 := WAITING, 3 := WAITING]))
  {
  }

  /** Then every check reads the reset row. */
  lemma ReadsReset(calls: map<nat, Call>, t: nat)
    requires t in calls && calls[t] == WAITING
    ensures Leads(Posted(RESET, calls), Read(t), Posted(RESET, calls[t := FOUND]))
  {
    forall b ensures b in Earned(RESET) <==> b == FirstPost { EarnedIffEarns(RESET, b); }
    assert Earned(RESET) == {FirstPost};
  }

  lemma AwardsFirst(calls: map<nat, Call>, t: nat)
    requires t in calls && calls[t] == FOUND
    ensures Leads(Posted(RESET, calls), Award(t, FirstPost), Awarded(calls[t := DONE]))
    ensures Leads(Awarded(calls), Award(t, FirstPost), Awarded(calls[t := DONE]))
  {
    assert {FirstPost} - {FirstPost} == {};
  }

  /** Three consecutive days are on record, all calls are over, nothing failed, and there is no badge. */
  lemma StreakBadgeLost() returns (states: seq<State>, steps: seq<Step>, i: nat)
    ensures Run(states, steps) && i < |states| && Settled(states[i], SOMEONE) && SOMEONE !in states[i].errors
    ensures GetStreak(states[i].rows, SOMEONE).max == 3 && (SOMEONE, StreakBadge(3)) !in states[i].badges
  {
    states, steps := LostRun();
    i := 12;
  }

  lemma StartsEmpty()
    ensures Run([NOTHING], [])
  {
  }

  lemma LostRun() returns (states: seq<State>, steps: seq<Step>)
    ensures Run(states, steps) && |states| == 13
    ensures states[12] == Awarded(map[0 := DONE, 1 := DONE, 2 := DONE, 3 := DONE])
  {
    var p1, p2 := Posted(Streak(1, 1, Some(1), 1, 1, 0), map[0 := WAITING]), Posted(Streak(2, 2, Some(2), 2, 1, 0), map[0 := WAITING, 1 := WAITING]);
    var p3 := Posted(Streak(3, 3, Some(3), 3, 1, 0), map[0 := WAITING, 1 := WAITING, 2 := WAITING]);
    var c0 := map[0 := WAITING, 1 := WAITING, 2 := WAITING, 3 := WAITING];
    var c1 := c0[0 := FOUND];
    var c2 := c1[1 := FOUND];
    var c3 := c2[2 := FOUND];
    var c4 := c3[3 := FOUND];
    var d1 := c4[0 := DONE];
    var d2 := d1[1 := DONE];
    var d3 := d2[2 := DONE];
    var d4 := d3[3 := DONE];
    assert d4 == map[0 := DONE, 1 := DONE, 2 := DONE, 3 := DONE];
    hide *;
    StartsEmpty();
    PostsFirst();
    RunOnFour([NOTHING], [], Recorded(0, SOMEONE, Post(1, 1)), p1, Recorded(1, SOMEONE, Post(2, 1)), p2,
              Recorded(2, SOMEONE, Post(3, 1)), p3, Recorded(3, SOMEONE, Post(5, 1)), Posted(RESET, c0));
    states := [NOTHING] + [p1, p2, p3, Posted(RESET, c0)];
    steps := [] + [Recorded(0, SOMEONE, Post(1, 1)), Recorded(1, SOMEONE, Post(2, 1)), Recorded(2, SOMEONE, Post(3, 1)), Recorded(3, SOMEONE, Post(5, 1))];
    ReadsReset(c0, 0);
    ReadsReset(c1, 1);
    ReadsReset(c2, 2);
    ReadsReset(c3, 3);
    RunOnFour(states, steps, Read(0), Posted(RESET, c1), Read(1), Posted(RESET, c2), Read(2), Posted(RESET, c3), Read(3), Posted(RESET, c4));
    states := states + [Posted(RESET, c1), Posted(RESET, c2), Posted(RESET, c3), Posted(RESET, c4)];
    steps := steps + [Read(0), Read(1), Read(2), Read(3)];
    AwardsFirst(c4, 0);
    AwardsFirst(d1, 1);
    AwardsFirst(d2, 2);
    AwardsFirst(d3, 3);
    RunOnFour(states, steps, Award(0, FirstPost), Awarded(d1), Award(1, FirstPost), Awarded(d2), Award(2, FirstPost), Awarded(d3),
              Award(3, FirstPost), Awarded(d4));
    states := states + [Awarded(d1), Awarded(d2), Awarded(d3), Awarded(d4)];
    steps := steps + [Award(0, FirstPost), Award(1, FirstPost), Award(2, FirstPost), Award(3, FirstPost)];
  }
}
