/** Emoji reactions: the server's toggle and its per-message and batch summaries
    (backend/internal/repository/interaction_repo.go), and the optimistic update of the
    Flutter popup (mobile/lib/widgets/message_popup.dart). */
module Reactions {
  import opened Basics
  import Hashtags

  type Emoji = string

  /** One entry of a reaction list: how many users reacted, and whether this user did. */
  datatype Summary = Summary(emoji: Emoji, count: int, reacted: bool)

  /** The reactions under one message, unique per user and emoji. */
  type Rows = set<(User, Emoji)>

  function With(rows: Rows, e: Emoji): Rows
  {
    set p | p in rows && p.1 == e
  }

  /** One entry per emoji present, with the right count and flag, in any order. */
  ghost predicate IsSummary(rows: Rows, u: User, list: seq<Summary>)
  {
    && (forall i, j :: 0 <= i < j < |list| ==> list[i].emoji != list[j].emoji)
    && (forall i :: 0 <= i < |list| ==> Exact(rows, u, list[i]))
    && (forall p :: p in rows ==> Lists(list, p.1))
  }

  predicate Exact(rows: Rows, u: User, s: Summary)
  {
    s.count == |With(rows, s.emoji)| && s.count > 0 && s.reacted == ((u, s.emoji) in rows)
  }

  ghost predicate Lists(list: seq<Summary>, e: Emoji)
  {
    exists i :: 0 <= i < |list| && list[i].emoji == e
  }

  /** The query's answer: a summary ordered by descending count, ties in any order. */
  ghost predicate Answer(rows: Rows, u: User, list: seq<Summary>)
  {
    IsSummary(rows, u, list) && forall i, j :: 0 <= i < j < |list| ==> list[i].count >= list[j].count
  }

  /** The server's toggle of one row. */
  function ToggleRow(rows: Rows, u: User, e: Emoji): Rows
  {
    if (u, e) in rows then rows - {(u, e)} else rows + {(u, e)}
  }

  lemma ToggleWith(rows: Rows, u: User, e: Emoji, f: Emoji)
    ensures With(ToggleRow(rows, u, e), f) ==
            if f != e then With(rows, f) else if (u, e) in rows then With(rows, e) - {(u, e)} else With(rows, e) + {(u, e)}
    ensures (u, e) in With(rows, e) <==> (u, e) in rows
  {
  }

  lemma ToggleCounts(rows: Rows, u: User, e: Emoji, f: Emoji)
    ensures |With(ToggleRow(rows, u, e), f)| ==
            |With(rows, f)| + if f != e then 0 else if (u, e) in rows then -1 else 1
  {
    hide With;
    hide ToggleRow;
    ToggleWith(rows, u, e, f);
  }

  lemma ToggleOthers(rows: Rows, u: User, e: Emoji, s: Summary)
    requires s.emoji != e
    ensures Exact(ToggleRow(rows, u, e), u, s) <==> Exact(rows, u, s)
  {
    ToggleCounts(rows, u, e, s.emoji);
  }

  /** Position of the entry for `e`, or -1. */
  function IndexOf(list: seq<Summary>, e: Emoji): (idx: int)
    ensures -1 <= idx < |list|
    ensures idx >= 0 ==> list[idx].emoji == e
    ensures idx < 0 ==> !Lists(list, e)
  {
    if list == [] then -1
    else if list[0].emoji == e then 0
    else var i := IndexOf(list[1..], e); if i < 0 then -1 else i + 1
  }

  /** The popup's optimistic edit of its list. */
  function Optimistic(list: seq<Summary>, e: Emoji): seq<Summary>
  {
    var idx := IndexOf(list, e);
    if idx < 0 then list + [Summary(e, 1, true)]
    else if !list[idx].reacted then list[idx := Summary(e, list[idx].count + 1, true)]
    else if list[idx].count <= 1 then list[..idx] + list[idx + 1..]
    else list[idx := Summary(e, list[idx].count - 1, false)]
  }

  lemma NotListed(rows: Rows, u: User, list: seq<Summary>, e: Emoji)
    requires IsSummary(rows, u, list) && !Lists(list, e)
    ensures With(rows, e) == {}
  {
    assert forall p :: p in With(rows, e) ==> Lists(list, p.1);
  }

  lemma OptimisticAdd(rows: Rows, u: User, list: seq<Summary>, e: Emoji)
    requires IsSummary(rows, u, list) && !Lists(list, e)
    ensures IsSummary(ToggleRow(rows, u, e), u, list + [Summary(e, 1, true)])
  {
    var rows', list' := ToggleRow(rows, u, e), list + [Summary(e, 1, true)];
    NotListed(rows, u, list, e);
    assert (u, e) !in rows by { assert (u, e) in rows ==> (u, e) in With(rows, e); }
    ToggleCounts(rows, u, e, e);
    forall i | 0 <= i < |list'| ensures Exact(rows', u, list'[i]) {
      if i < |list| { ToggleOthers(rows, u, e, list[i]); }
    }
    forall p | p in rows' ensures Lists(list', p.1) {
      if p in rows {
        var i :| 0 <= i < |list| && list[i].emoji == p.1;
        assert list'[i].emoji == p.1;
      } else {
        assert list'[|list|].emoji == p.1;
      }
    }
  }

  lemma OptimisticReplace(rows: Rows, u: User, list: seq<Summary>, idx: nat, s: Summary)
    requires IsSummary(rows, u, list) && idx < |list| && list[idx].emoji == s.emoji
    requires Exact(ToggleRow(rows, u, s.emoji), u, s)
    ensures IsSummary(ToggleRow(rows, u, s.emoji), u, list[idx := s])
  {
    var rows', list' := ToggleRow(rows, u, s.emoji), list[idx := s];
    forall i | 0 <= i < |list'| ensures Exact(rows', u, list'[i]) {
      if i != idx { ToggleOthers(rows, u, s.emoji, list[i]); }
    }
    forall p | p in rows' ensures Lists(list', p.1) {
      if p.1 == s.emoji {
        assert list'[idx].emoji == p.1;
      } else {
        var i :| 0 <= i < |list| && list[i].emoji == p.1;
        assert list'[i].emoji == p.1;
      }
    }
  }

  lemma OptimisticRemove(rows: Rows, u: User, list: seq<Summary>, idx: nat)
    requires IsSummary(rows, u, list) && idx < |list| && list[idx].reacted && list[idx].count <= 1
    ensures IsSummary(ToggleRow(rows, u, list[idx].emoji), u, list[..idx] + list[idx + 1..])
  {
    var e := list[idx].emoji;
    var rows', list' := ToggleRow(rows, u, e), list[..idx] + list[idx + 1..];
    assert Exact(rows, u, list[idx]);
    ToggleCounts(rows, u, e, e);
    assert forall i :: 0 <= i < |list'| ==> list'[i] == list[if i < idx then i else i + 1];
    forall i | 0 <= i < |list'| ensures Exact(rows', u, list'[i]) {
      ToggleOthers(rows, u, e, list'[i]);
    }
    forall p | p in rows' ensures Lists(list', p.1) {
      assert p.1 != e by { assert p.1 == e ==> p in With(rows', e); }
      var i :| 0 <= i < |list| && list[i].emoji == p.1;
      assert list'[if i < idx then i else i - 1].emoji == p.1;
    }
  }

  /** The optimistic list is a summary of the rows after the server's toggle, for all rows,
      users and emojis. */
  lemma OptimisticIsSummary(rows: Rows, u: User, list: seq<Summary>, e: Emoji)
    requires IsSummary(rows, u, list)
    ensures IsSummary(ToggleRow(rows, u, e), u, Optimistic(list, e))
  {
    var idx := IndexOf(list, e);
    if idx < 0 {
      OptimisticAdd(rows, u, list, e);
    } else {
      assert Exact(rows, u, list[idx]);
      ToggleCounts(rows, u, e, e);
      if !list[idx].reacted {
        OptimisticReplace(rows, u, list, idx, Summary(e, list[idx].count + 1, true));
      } else if list[idx].count <= 1 {
        OptimisticRemove(rows, u, list, idx);
      } else {
        OptimisticReplace(rows, u, list, idx, Summary(e, list[idx].count - 1, false));
      }
    }
  }

  lemma {:induction false} DistinctMultiset(list: seq<Summary>, s: Summary)
    requires forall i, j :: 0 <= i < j < |list| ==> list[i].emoji != list[j].emoji
    ensures multiset(list)[s] == if s in list then 1 else 0
  {
    if list != [] {
      DistinctMultiset(list[1..], s);
      assert list == [list[0]] + list[1..];
    }
  }

  /** A summary is determined by the rows up to the order of its entries. */
  lemma SummaryUnique(rows: Rows, u: User, a: seq<Summary>, b: seq<Summary>)
    requires IsSummary(rows, u, a) && IsSummary(rows, u, b)
    ensures multiset(a) == multiset(b)
  {
    forall s ensures multiset(a)[s] == multiset(b)[s] {
      DistinctMultiset(a, s);
      DistinctMultiset(b, s);
      if s in a { SameEntries(rows, u, a, b, s); }
      if s in b { SameEntries(rows, u, b, a, s); }
    }
  }

  lemma SameEntries(rows: Rows, u: User, a: seq<Summary>, b: seq<Summary>, s: Summary)
    requires IsSummary(rows, u, a) && IsSummary(rows, u, b) && s in a
    ensures s in b
  {
    assert Exact(rows, u, s);
    assert With(rows, s.emoji) != {};
    var p :| p in With(rows, s.emoji);
    var i :| 0 <= i < |b| && b[i].emoji == p.1;
    assert Exact(rows, u, b[i]);
  }

  /** The service trims the emoji before it toggles the row. */
  function ServerToggle(rows: Rows, u: User, e: Emoji): Rows
  {
    ToggleRow(rows, u, Hashtags.TrimSpace(e))
  }

  /** A summary shows whether its user reacted with `e`. */
  lemma SummaryShowsOwn(rows: Rows, u: User, list: seq<Summary>, e: Emoji)
    requires IsSummary(rows, u, list)
    ensures (u, e) in rows <==> exists s :: s in list && s.emoji == e && s.reacted
  {
    if (u, e) in rows {
      assert Lists(list, e);
      var i :| 0 <= i < |list| && list[i].emoji == e;
      assert Exact(rows, u, list[i]);
      assert list[i] in list;
    }
    if s :| s in list && s.emoji == e && s.reacted {
      assert Exact(rows, u, s);
    }
  }

  /** The optimistic toggle commutes with the server: what the popup shows at once equals, up to
      order, what the server answers after its toggle, for all rows, users and emojis, exactly
      when trimming leaves the emoji alone. */
  lemma OptimisticCommutes(rows: Rows, u: User, shown: seq<Summary>, e: Emoji, answer: seq<Summary>)
    requires IsSummary(rows, u, shown) && Answer(ServerToggle(rows, u, e), u, answer)
    ensures multiset(Optimistic(shown, e)) == multiset(answer) <==> Hashtags.TrimSpace(e) == e
  {
    var here, there := ToggleRow(rows, u, e), ServerToggle(rows, u, e);
    OptimisticIsSummary(rows, u, shown, e);
    if Hashtags.TrimSpace(e) == e {
      SummaryUnique(here, u, Optimistic(shown, e), answer);
    } else {
      hide Optimistic;
      SummaryShowsOwn(here, u, Optimistic(shown, e), e);
      SummaryShowsOwn(there, u, answer, e);
      assert (u, e) in here <==> (u, e) !in there;
      SameMembers(Optimistic(shown, e), answer);
    }
  }

  lemma SameMembers(a: seq<Summary>, b: seq<Summary>)
    ensures multiset(a) == multiset(b) ==> forall s :: s in a <==> s in b
  {
    if multiset(a) == multiset(b) {
      forall s ensures s in a <==> s in b {
        assert s in a <==> s in multiset(a);
        assert s in b <==> s in multiset(b);
      }
    }
  }

  /** Toggling twice restores the rows, and the optimistic list up to order. */
  lemma ToggleTwice(rows: Rows, u: User, shown: seq<Summary>, e: Emoji)
    requires IsSummary(rows, u, shown)
    ensures ToggleRow(ToggleRow(rows, u, e), u, e) == rows
    ensures multiset(Optimistic(Optimistic(shown, e), e)) == multiset(shown)
  {
    assert ToggleRow(ToggleRow(rows, u, e), u, e) == rows;
    OptimisticIsSummary(rows, u, shown, e);
    OptimisticIsSummary(ToggleRow(rows, u, e), u, Optimistic(shown, e), e);
    SummaryUnique(rows, u, shown, Optimistic(Optimistic(shown, e), e));
  }

  /** The popup's reaction state. */
  class Popup {
    var reactions: seq<Summary>

    /** The setState block: edit the list in place. */
    method Edit(emoji: Emoji)
      modifies this
      ensures reactions == Optimistic(old(reactions), emoji)
    {
      var idx := 0;
      while idx < |reactions| && reactions[idx].emoji != emoji
        invariant 0 <= idx <= |reactions|
        invariant reactions == old(reactions)
        invariant IndexOf(reactions, emoji) == if IndexOf(reactions[idx..], emoji) < 0 then -1 else idx + IndexOf(reactions[idx..], emoji)
      {
        assert reactions[idx..][1..] == reactions[idx + 1..];
        idx := idx + 1;
      }
      if idx < |reactions| {
        var existing := reactions[idx];
        if existing.reacted {
          if existing.count <= 1 {
            reactions := reactions[..idx] + reactions[idx + 1..];
          } else {
            reactions := reactions[idx := Summary(emoji, existing.count - 1, false)];
          }
        } else {
          reactions := reactions[idx := Summary(emoji, existing.count + 1, true)];
        }
      } else {
        reactions := reactions + [Summary(emoji, 1, true)];
      }
    }

    /** The whole toggle: edit, then take the server's list, or on error put the saved copy back.
        `shown` is what was displayed meanwhile. */
    method ToggleReaction(emoji: Emoji, response: Option<seq<Summary>>, mounted: bool) returns (shown: seq<Summary>)
      modifies this
      ensures shown == Optimistic(old(reactions), emoji)
      ensures mounted && response.None? ==> reactions == old(reactions)
      ensures mounted && response.Some? ==> reactions == response.value
      ensures !mounted ==> reactions == shown
    {
      var oldReactions := reactions;
      Edit(emoji);
      shown := reactions;
      match response
      case Some(list) => if mounted { reactions := list; }
      case None => if mounted { reactions := oldReactions; }
    }
  }

  // ---- Batch summaries -----------------------------------------------------------

  /** All reactions, as rows (message, user, emoji). */
  type AllRows = set<(Msg, User, Emoji)>

  function Under(all: AllRows, m: Msg): Rows
  {
    set t | t in all && t.0 == m :: (t.1, t.2)
  }

  /** The reactions table. */
  class ReactionRepo {
    var all: AllRows

    /** Select, then delete or insert: toggles this user's row under this message only. */
    method ToggleReaction(m: Msg, u: User, e: Emoji) returns (added: bool)
      modifies this
      ensures added == ((u, e) !in Under(old(all), m))
      ensures Under(all, m) == ToggleRow(Under(old(all), m), u, e)
      ensures forall other :: other != m ==> Under(all, other) == Under(old(all), other)
    {
      ghost var before := all;
      assert (m, u, e) in before <==> (u, e) in Under(before, m);
      if (m, u, e) in all {
        all := all - {(m, u, e)};
        added := false;
      } else {
        all := all + {(m, u, e)};
        added := true;
      }
      forall o, v, f ensures (v, f) in Under(all, o) <==> (o, v, f) in all {
        assert (o, v, f) in all ==> (v, f) in Under(all, o);
      }
      forall o, v, f ensures (v, f) in Under(before, o) <==> (o, v, f) in before {
        assert (o, v, f) in before ==> (v, f) in Under(before, o);
      }
      PairsDecide(Under(all, m), ToggleRow(Under(before, m), u, e));
      forall other | other != m ensures Under(all, other) == Under(before, other) {
        PairsDecide(Under(all, other), Under(before, other));
      }
    }

    /** The service's toggle: trim, then toggle. */
    method ServeToggle(m: Msg, u: User, emoji: Emoji) returns (reacted: bool)
      modifies this
      ensures reacted == ((u, Hashtags.TrimSpace(emoji)) in Under(all, m))
      ensures Under(all, m) == ServerToggle(Under(old(all), m), u, emoji)
      ensures forall other :: other != m ==> Under(all, other) == Under(old(all), other)
    {
      reacted := ToggleReaction(m, u, Hashtags.TrimSpace(emoji));
    }
  }

  lemma PairsDecide(a: Rows, b: Rows)
    requires forall v, f :: (v, f) in a <==> (v, f) in b
    ensures a == b
  {
    forall p: (User, Emoji) ensures p in a <==> p in b {
      assert p == (p.0, p.1);
    }
  }

  /** The rows of the batch query: grouped per message and emoji, descending count within
      each message. */
  ghost predicate BatchAnswer(all: AllRows, ids: seq<Msg>, u: User, rows: seq<(Msg, Summary)>)
  {
    && (forall i :: 0 <= i < |rows| ==> rows[i].0 in ids && Exact(Under(all, rows[i].0), u, rows[i].1))
    && (forall i, j :: 0 <= i < j < |rows| && rows[i].0 == rows[j].0 ==> Before(rows[i].1, rows[j].1))
    && (forall t :: t in all && t.0 in ids ==> RowFor(rows, t.0, t.2))
  }

  predicate Before(a: Summary, b: Summary) { a.emoji != b.emoji && a.count >= b.count }

  ghost predicate RowFor(rows: seq<(Msg, Summary)>, m: Msg, e: Emoji)
  {
    exists i :: 0 <= i < |rows| && rows[i].0 == m && rows[i].1.emoji == e
  }

  /** The entries the scan loop collects for one message. */
  function GroupOf(rows: seq<(Msg, Summary)>, m: Msg): seq<Summary>
  {
    if rows == [] then []
    else GroupOf(rows[..|rows| - 1], m) + if rows[|rows| - 1].0 == m then [rows[|rows| - 1].1] else []
  }

  lemma {:induction false} GroupMembers(rows: seq<(Msg, Summary)>, m: Msg, s: Summary)
    ensures s in GroupOf(rows, m) <==> (m, s) in rows
  {
    if rows != [] {
      var n := |rows| - 1;
      GroupMembers(rows[..n], m, s);
      assert rows == rows[..n] + [rows[n]];
    }
  }

  lemma {:induction false} GroupOrdered(rows: seq<(Msg, Summary)>, m: Msg)
    requires forall i, j :: 0 <= i < j < |rows| && rows[i].0 == rows[j].0 ==> Before(rows[i].1, rows[j].1)
    ensures var g := GroupOf(rows, m); forall i, j :: 0 <= i < j < |g| ==> Before(g[i], g[j])
  {
    if rows != [] {
      var n := |rows| - 1;
      GroupOrdered(rows[..n], m);
      var g, last := GroupOf(rows[..n], m), rows[n];
      if last.0 == m {
        forall i | 0 <= i < |g| ensures Before(g[i], last.1) {
          GroupMembers(rows[..n], m, g[i]);
          var k :| 0 <= k < n && rows[..n][k] == (m, g[i]);
          assert rows[k] == (m, g[i]);
        }
      }
    }
  }

  /** Batch enrichment gives each message exactly its own summary: the group collected for a
      message is an answer to the single-message query, and it is empty, so that no entry
      exists, exactly when the message has no reactions. */
  lemma BatchGivesOwnSummary(all: AllRows, ids: seq<Msg>, u: User, rows: seq<(Msg, Summary)>, m: Msg)
    requires BatchAnswer(all, ids, u, rows) && m in ids
    ensures Answer(Under(all, m), u, GroupOf(rows, m))
    ensures GroupOf(rows, m) == [] <==> Under(all, m) == {}
  {
    var g := GroupOf(rows, m);
    GroupOrdered(rows, m);
    forall i | 0 <= i < |g| ensures Exact(Under(all, m), u, g[i]) {
      GroupExact(all, ids, u, rows, m, g[i]);
    }
    forall p | p in Under(all, m) ensures Lists(g, p.1) {
      GroupComplete(all, ids, u, rows, m, p);
    }
    hide GroupOf;
    hide Under;
    hide BatchAnswer;
    if g != [] {
      assert Exact(Under(all, m), u, g[0]);
      var p :| p in With(Under(all, m), g[0].emoji);
    }
    if Under(all, m) != {} {
      var p :| p in Under(all, m);
      assert Lists(g, p.1);
    }
  }

  lemma GroupExact(all: AllRows, ids: seq<Msg>, u: User, rows: seq<(Msg, Summary)>, m: Msg, s: Summary)
    requires BatchAnswer(all, ids, u, rows) && s in GroupOf(rows, m)
    ensures Exact(Under(all, m), u, s)
  {
    GroupMembers(rows, m, s);
    var k :| 0 <= k < |rows| && rows[k] == (m, s);
  }

  lemma GroupComplete(all: AllRows, ids: seq<Msg>, u: User, rows: seq<(Msg, Summary)>, m: Msg, p: (User, Emoji))
    requires BatchAnswer(all, ids, u, rows) && m in ids && p in Under(all, m)
    ensures Lists(GroupOf(rows, m), p.1)
  {
    var t :| t in all && t.0 == m && (t.1, t.2) == p;
    assert RowFor(rows, m, p.1);
    var k :| 0 <= k < |rows| && rows[k].0 == m && rows[k].1.emoji == p.1;
    assert rows[k] == (m, rows[k].1);
    GroupMembers(rows, m, rows[k].1);
    var i :| 0 <= i < |GroupOf(rows, m)| && GroupOf(rows, m)[i] == rows[k].1;
  }

  /** The scan loop of GetReactionsByMessages. */
  method GroupRows(rows: seq<(Msg, Summary)>) returns (result: map<Msg, seq<Summary>>)
    ensures forall m :: m in result <==> GroupOf(rows, m) != []
    ensures forall m :: m in result ==> result[m] == GroupOf(rows, m)
  {
    result := map[];
    var i := 0;
    while i < |rows|
      invariant 0 <= i <= |rows|
      invariant forall m :: m in result <==> GroupOf(rows[..i], m) != []
      invariant forall m :: m in result ==> result[m] == GroupOf(rows[..i], m)
    {
      var id, s := rows[i].0, rows[i].1;
      assert rows[..i + 1][..i] == rows[..i];
      result := result[id := (if id in result then result[id] else []) + [s]];
      i := i + 1;
    }
    assert rows[..i] == rows;
  }
}
