/** Likes, comments and their counters: interactions rows, the row trigger that keeps
    messages.likes_count and messages.comments_count, and the check-then-act ToggleLike.
    A toggle is two atomic steps: the SELECT, then the write with its trigger, the count
    read and the commit. The trigger's update locks the message row until commit, so the
    second part of two toggles of one message cannot interleave. */
module Likes {
  import opened Basics

  type Id = nat

  datatype Kind = Like | Comment

  /** A row of interactions. */
  datatype Row = Row(msg: Msg, user: User, kind: Kind)

  /** The counter columns of a message. */
  datatype Counters = Counters(likes: int, comments: int)

  /** An open ToggleLike transaction that has done its SELECT. */
  datatype Toggle = Toggle(msg: Msg, user: User, found: Option<Id>)

  /** Ids of messages and rows are generated fresh and never reused. */
  datatype State = State(
    messages: map<Msg, Counters>, everUsed: set<Msg>,
    rows: map<Id, Row>, nextId: Id,
    toggles: map<nat, Toggle>)

  datatype Step =
    | CreateMessage(msg: Msg)
    | DeleteMessage(msg: Msg)
    | Select(tx: nat, msg: Msg, user: User)
    | Commit(tx: nat)
    | Abort(tx: nat)
    | AddComment(msg: Msg, user: User)
    | DeleteComment(id: Id, user: User)

  /** The rows of one kind under a message. */
  function RowsOf(rows: map<Id, Row>, m: Msg, k: Kind): set<Id>
  {
    set id | id in rows && rows[id].msg == m && rows[id].kind == k
  }

  predicate HasLike(rows: map<Id, Row>, m: Msg, u: User)
  {
    exists id :: id in rows && rows[id] == Row(m, u, Like)
  }

  /** The trigger: adjust the message's counter of this kind, if the message still exists. */
  function Trigger(ms: map<Msg, Counters>, m: Msg, k: Kind, delta: int): map<Msg, Counters>
  {
    if m !in ms then ms
    else if k == Like then ms[m := ms[m].(likes := ms[m].likes + delta)]
    else ms[m := ms[m].(comments := ms[m].comments + delta)]
  }

  /** INSERT of one row, with its trigger. */
  function InsertRow(st: State, r: Row): State
  {
    st.(rows := st.rows[st.nextId := r], nextId := st.nextId + 1, messages := Trigger(st.messages, r.msg, r.kind, 1))
  }

  /** DELETE by id, with its trigger; zero rows affected leaves everything alone. */
  function DeleteRow(st: State, id: Id): State
  {
    if id !in st.rows then st
    else st.(rows := st.rows - {id}, messages := Trigger(st.messages, st.rows[id].msg, st.rows[id].kind, -1))
  }

  predicate Enabled(st: State, step: Step)
  {
    match step
    case CreateMessage(m) => m !in st.everUsed
    case DeleteMessage(m) => m in st.messages
    case Select(t, _, _) => t !in st.toggles
    case Commit(t) => t in st.toggles
    case Abort(t) => t in st.toggles
    case AddComment(_, _) => true
    case DeleteComment(_, _) => true
  }

  /** The effect of the second part of ToggleLike, None when it fails and rolls back: the
      message is gone (no count to read, or the foreign key refuses the insert), or the
      unique index refuses a second like. */
  function Write(st: State, tx: Toggle): Option<State>
  {
    if tx.msg !in st.messages then None
    else match tx.found
      case Some(id) => Some(DeleteRow(st, id))
      case None => if HasLike(st.rows, tx.msg, tx.user) then None else Some(InsertRow(st, Row(tx.msg, tx.user, Like)))
  }

  /** Which row the SELECT returns. */
  ghost predicate Finds(rows: map<Id, Row>, m: Msg, u: User, found: Option<Id>)
  {
    match found
    case None => !HasLike(rows, m, u)
    case Some(id) => id in rows && rows[id] == Row(m, u, Like)
  }

  ghost predicate Next(st: State, step: Step, st': State)
  {
    Enabled(st, step) &&
    match step
    case CreateMessage(m) =>
      st' == st.(messages := st.messages[m := Counters(0, 0)], everUsed := st.everUsed + {m})
    case DeleteMessage(m) =>
      // Deleting the message row cascades to its interactions; their trigger finds no message.
      st' == st.(messages := st.messages - {m}, rows := map id | id in st.rows && st.rows[id].msg != m :: st.rows[id])
    case Select(t, m, u) =>
      exists found :: Finds(st.rows, m, u, found) && st' == st.(toggles := st.toggles[t := Toggle(m, u, found)])
    case Commit(t) =>
      var done := Write(st, st.toggles[t]);
      st' == (if done.Some? then done.value else st).(toggles := st.toggles - {t})
    case Abort(t) => st' == st.(toggles := st.toggles - {t})
    case AddComment(m, u) => st' == if m in st.messages then InsertRow(st, Row(m, u, Comment)) else st
    case DeleteComment(id, u) =>
      st' == if id in st.rows && st.rows[id].user == u && st.rows[id].kind == Comment then DeleteRow(st, id) else st
  }

  /** A run from any starting state. */
  ghost predicate Run(states: seq<State>, steps: seq<Step>)
  {
    && |states| == |steps| + 1
    && forall i :: 0 <= i < |steps| ==> Next(states[i], steps[i], states[i + 1])
  }

  const EMPTY: State := State(map[], {}, map[], 0, map[])

  /** Fresh ids really are fresh, rows belong to live messages, one like per user and
      message, and a SELECT result that still exists is still that like. */
  ghost predicate Inv(st: State)
  {
    && st.messages.Keys <= st.everUsed
    && (forall id :: id in st.rows ==> id < st.nextId && st.rows[id].msg in st.messages)
    && (forall t :: t in st.toggles && st.toggles[t].found.Some? ==>
          var tx := st.toggles[t];
          tx.found.value < st.nextId && (tx.found.value in st.rows ==> st.rows[tx.found.value] == Row(tx.msg, tx.user, Like)))
    && OneLikeEach(st.rows)
  }

  /** The unique index: no two like rows for one user and message. */
  ghost predicate OneLikeEach(rows: map<Id, Row>)
  {
    forall a, b :: a in rows && b in rows && rows[a].kind == Like && rows[a] == rows[b] ==> a == b
  }

  function Counter(c: Counters, k: Kind): int { if k == Like then c.likes else c.comments }

  /** How far a live message's counter is from its actual number of rows. */
  function Drift(st: State, m: Msg, k: Kind): int
    requires m in st.messages
  {
    Counter(st.messages[m], k) - |RowsOf(st.rows, m, k)|
  }

  lemma CountAfterInsert(rows: map<Id, Row>, id: Id, r: Row, m: Msg, k: Kind)
    requires id !in rows
    ensures |RowsOf(rows[id := r], m, k)| == |RowsOf(rows, m, k)| + if r.msg == m && r.kind == k then 1 else 0
  {
    var rows' := rows[id := r];
    if r.msg == m && r.kind == k {
      assert RowsOf(rows', m, k) == RowsOf(rows, m, k) + {id};
    } else {
      assert RowsOf(rows', m, k) == RowsOf(rows, m, k);
    }
  }

  lemma CountAfterDelete(rows: map<Id, Row>, id: Id, m: Msg, k: Kind)
    requires id in rows
    ensures |RowsOf(rows - {id}, m, k)| == |RowsOf(rows, m, k)| - if rows[id].msg == m && rows[id].kind == k then 1 else 0
  {
    assert (rows - {id})[id := rows[id]] == rows;
    CountAfterInsert(rows - {id}, id, rows[id], m, k);
  }

  lemma InsertKeeps(st: State, r: Row, m: Msg, k: Kind)
    requires st.nextId !in st.rows && r.msg in st.messages && m in st.messages
    ensures m in InsertRow(st, r).messages
    ensures Drift(InsertRow(st, r), m, k) == Drift(st, m, k)
  {
    hide RowsOf;
    CountAfterInsert(st.rows, st.nextId, r, m, k);
  }

  lemma DeleteKeeps(st: State, id: Id, m: Msg, k: Kind)
    requires id in st.rows ==> st.rows[id].msg in st.messages
    requires m in st.messages
    ensures m in DeleteRow(st, id).messages
    ensures Drift(DeleteRow(st, id), m, k) == Drift(st, m, k)
  {
    hide RowsOf;
    if id in st.rows { CountAfterDelete(st.rows, id, m, k); }
  }

  lemma InsertInv(st: State, r: Row)
    requires Inv(st) && r.msg in st.messages && (r.kind == Like ==> !HasLike(st.rows, r.msg, r.user))
    ensures Inv(InsertRow(st, r))
  {
    var st' := InsertRow(st, r);
    assert st'.messages.Keys == st.messages.Keys;
  }

  lemma DeleteInv(st: State, id: Id)
    requires Inv(st)
    ensures Inv(DeleteRow(st, id))
  {
    assert DeleteRow(st, id).messages.Keys == st.messages.Keys;
  }

  lemma StepInv(st: State, step: Step, st': State)
    requires Inv(st) && Next(st, step, st')
    ensures Inv(st')
  {
    match step
    case Commit(t) =>
      var tx := st.toggles[t];
      if tx.msg in st.messages {
        if tx.found.Some? { DeleteInv(st, tx.found.value); }
        else if !HasLike(st.rows, tx.msg, tx.user) { InsertInv(st, Row(tx.msg, tx.user, Like)); }
      }
    case AddComment(m, u) => if m in st.messages { InsertInv(st, Row(m, u, Comment)); }
    case DeleteComment(id, u) => DeleteInv(st, id);
    case _ =>
  }

  /** No step moves a live message's counter away from, or towards, its row count. */
  lemma StepKeepsDrift(st: State, step: Step, st': State, m: Msg, k: Kind)
    requires Inv(st) && Next(st, step, st') && m in st.messages && m in st'.messages
    ensures Drift(st', m, k) == Drift(st, m, k)
  {
    match step
    case DeleteMessage(gone) => assert RowsOf(st'.rows, m, k) == RowsOf(st.rows, m, k);
    case Commit(t) =>
      var tx := st.toggles[t];
      if tx.msg in st.messages {
        if tx.found.Some? { DeleteKeeps(st, tx.found.value, m, k); }
        else if !HasLike(st.rows, tx.msg, tx.user) { InsertKeeps(st, Row(tx.msg, tx.user, Like), m, k); }
      }
    case AddComment(c, u) => if c in st.messages { InsertKeeps(st, Row(c, u, Comment), m, k); }
    case DeleteComment(id, u) => DeleteKeeps(st, id, m, k);
    case _ =>
  }

  lemma {:induction false} RunInv(states: seq<State>, steps: seq<Step>, i: nat)
    requires Run(states, steps) && i < |states| && Inv(states[0])
    ensures Inv(states[i])
  {
    if i > 0 {
      RunInv(states, steps, i - 1);
      StepInv(states[i - 1], steps[i - 1], states[i]);
    }
  }

  lemma {:induction false} LiveThroughout(states: seq<State>, steps: seq<Step>, i: nat, j: nat, m: Msg)
    requires Run(states, steps) && i <= j < |states| && Inv(states[0])
    requires m in states[i].everUsed && m in states[j].messages
    ensures m in states[i].messages
    decreases j - i
  {
    if i < j {
      UsedForever(states, steps, i, i + 1, m);
      LiveThroughout(states, steps, i + 1, j, m);
    }
  }

  lemma {:induction false} UsedForever(states: seq<State>, steps: seq<Step>, i: nat, j: nat, m: Msg)
    requires Run(states, steps) && i <= j < |states| && m in states[i].everUsed
    ensures m in states[j].everUsed
    decreases j - i
  {
    if i < j {
      assert Next(states[i], steps[i], states[i + 1]);
      UsedForever(states, steps, i + 1, j, m);
    }
  }

  /** In every interleaving of toggles, comments and deletions, for every message live at two
      moments, counter minus actual rows is the same at both: double deletes of one like and
      losing duplicate inserts included. */
  lemma {:induction false} CountersConserved(states: seq<State>, steps: seq<Step>, i: nat, j: nat, m: Msg, k: Kind)
    requires Run(states, steps) && Inv(states[0]) && i <= j < |states|
    requires m in states[i].messages && m in states[j].messages
    ensures Drift(states[j], m, k) == Drift(states[i], m, k)
    decreases j - i
  {
    if i < j {
      RunInv(states, steps, i);
      RunInv(states, steps, i + 1);
      assert Next(states[i], steps[i], states[i + 1]);
      assert m in states[i + 1].everUsed by { UsedForever(states, steps, i, i + 1, m); }
      LiveThroughout(states, steps, i + 1, j, m);
      StepKeepsDrift(states[i], steps[i], states[i + 1], m, k);
      CountersConserved(states, steps, i + 1, j, m, k);
    }
  }

  /** From an empty store the counters are always exact, and nobody ever likes twice. */
  lemma {:induction false} CountersExact(states: seq<State>, steps: seq<Step>, i: nat, m: Msg, k: Kind)
    requires Run(states, steps) && states[0] == EMPTY && i < |states| && m in states[i].messages
    ensures Counter(states[i].messages[m], k) == |RowsOf(states[i].rows, m, k)|
    ensures OneLikeEach(states[i].rows)
  {
    RunInv(states, steps, i);
    if i > 0 {
      var st, step := states[i - 1], steps[i - 1];
      RunInv(states, steps, i - 1);
      if m in st.messages {
        CountersExact(states, steps, i - 1, m, k);
        StepKeepsDrift(st, step, states[i], m, k);
      } else {
        assert step == CreateMessage(m);
        assert RowsOf(states[i].rows, m, k) == {};
      }
    }
  }

  // ---- Who adds and removes rows ---------------------------------------------------------

  /** A row goes only with its message, or by its own user: a like by a toggle that found it, a comment
      by DeleteComment. So nobody deletes another's comment, and DeleteComment never removes a like. */
  lemma RowRemovedByOwner(st: State, step: Step, st': State, id: Id)
    requires Inv(st) && Next(st, step, st') && id in st.rows && id !in st'.rows
    ensures var row := st.rows[id];
            || step == DeleteMessage(row.msg)
            || (row.kind == Comment && step == DeleteComment(id, row.user))
            || (row.kind == Like && step.Commit? && st.toggles[step.tx] == Toggle(row.msg, row.user, Some(id)))
  {
  }

  /** A row comes only by its own user: a like by a toggle that found none, a comment by AddComment; and
      no row ever changes. */
  lemma RowAddedByOwner(st: State, step: Step, st': State, id: Id)
    requires Inv(st) && Next(st, step, st') && id in st'.rows
    ensures if id in st.rows then st'.rows[id] == st.rows[id]
            else
              var row := st'.rows[id];
              || (row.kind == Comment && step == AddComment(row.msg, row.user))
              || (row.kind == Like && step.Commit? && st.toggles[step.tx] == Toggle(row.msg, row.user, None))
  {
  }

  /** What each statement does when it can: a comment is added under a live message, or deleted by its
      user, and deleting a live message takes it and all its rows. A toggle opens with what its SELECT
      found and is over once it commits or is rolled back, the latter without any effect. */
  lemma StatementsAct(st: State, step: Step, st': State)
    requires Inv(st) && Next(st, step, st')
    ensures step.AddComment? && step.msg in st.messages ==>
              exists id :: id in st'.rows && id !in st.rows && st'.rows[id] == Row(step.msg, step.user, Comment)
    ensures step.DeleteComment? && step.id in st.rows && st.rows[step.id].user == step.user && st.rows[step.id].kind == Comment
            ==> step.id !in st'.rows
    ensures step.DeleteMessage? ==> step.msg !in st'.messages && forall id :: id in st'.rows ==> st'.rows[id].msg != step.msg
    ensures step.DeleteMessage? ==> step.msg in st.messages
    ensures step.CreateMessage? ==> step.msg in st'.messages && st'.messages[step.msg] == Counters(0, 0)
    ensures step.Select? ==>
              && step.tx !in st.toggles && step.tx in st'.toggles && st' == st.(toggles := st'.toggles)
              && st'.toggles[step.tx].msg == step.msg && st'.toggles[step.tx].user == step.user
              && Finds(st.rows, step.msg, step.user, st'.toggles[step.tx].found)
    ensures step.Commit? ==> step.tx in st.toggles && step.tx !in st'.toggles
    ensures step.Abort? ==> step.tx in st.toggles && step.tx !in st'.toggles && st' == st.(toggles := st'.toggles)
  {
    if step.AddComment? && step.msg in st.messages {
      assert st.nextId in st'.rows && st.nextId !in st.rows;
    }
  }

  /** The second part of a toggle under a live message does something exactly if the like it found still
      exists, or it found none and there is none now; then it flips its own user's like. */
  lemma CommitExact(st: State, t: nat, st': State)
    requires Inv(st) && Next(st, Commit(t), st') && t in st.toggles && st.toggles[t].msg in st.messages
    ensures var tx := st.toggles[t];
            var effective := if tx.found.Some? then tx.found.value in st.rows else !HasLike(st.rows, tx.msg, tx.user);
            && (effective ==> (HasLike(st'.rows, tx.msg, tx.user) <==> !HasLike(st.rows, tx.msg, tx.user)))
            && (!effective ==> st'.rows == st.rows && st'.messages == st.messages)
  {
    var tx := st.toggles[t];
    if tx.found.Some? && tx.found.value in st.rows {
      assert HasLike(st.rows, tx.msg, tx.user);
    }
    if tx.found.None? && !HasLike(st.rows, tx.msg, tx.user) {
      assert st'.rows[st.nextId] == Row(tx.msg, tx.user, Like);
    }
  }

  // ---- Serial toggles --------------------------------------------------------------

  /** The users who like a message. */
  function LikedBy(rows: map<Id, Row>, m: Msg): set<User>
  {
    set id | id in rows && rows[id].msg == m && rows[id].kind == Like :: rows[id].user
  }

  /** The tables as an object; ToggleLike run without interference. */
  class InteractionRepo {
    var st: State

    constructor ()
      ensures st == EMPTY
    {
      st := EMPTY;
    }

    /** Liked flag and count as in LikeResponse; None when the transaction is rolled back. */
    method ToggleLike(m: Msg, u: User) returns (resp: Option<(bool, int)>)
      requires Inv(st)
      modifies this
      ensures Inv(st)
      ensures resp.None? <==> m !in old(st.messages)
      ensures resp.None? ==> st == old(st)
      ensures resp.Some? ==>
                && m in st.messages && m in old(st.messages)
                && resp.value.0 == (u !in LikedBy(old(st.rows), m))
                && LikedBy(st.rows, m) == (if resp.value.0 then LikedBy(old(st.rows), m) + {u} else LikedBy(old(st.rows), m) - {u})
                && resp.value.1 == st.messages[m].likes
                && Drift(st, m, Like) == Drift(old(st), m, Like)
                && st.messages[m].likes == old(st).messages[m].likes + (if resp.value.0 then 1 else -1)
    {
      if m !in st.messages {
        return None;
      }
      var mine := set id | id in st.rows && st.rows[id] == Row(m, u, Like);
      if mine != {} {
        var id :| id in mine;
        DeleteInv(st, id);
        DeleteKeeps(st, id, m, Like);
        UnlikeUsers(st, id, m, u);
        st := DeleteRow(st, id);
        return Some((false, st.messages[m].likes));
      } else {
        assert forall id :: id in st.rows && st.rows[id] == Row(m, u, Like) ==> id in mine;
        InsertInv(st, Row(m, u, Like));
        InsertKeeps(st, Row(m, u, Like), m, Like);
        LikeUsers(st, m, u);
        st := InsertRow(st, Row(m, u, Like));
        return Some((true, st.messages[m].likes));
      }
    }

    /** Two toggles in a row restore the set of users who like the message, and the count. */
    method ToggleTwice(m: Msg, u: User)
      requires Inv(st) && m in st.messages
      modifies this
      ensures Inv(st) && m in st.messages
      ensures LikedBy(st.rows, m) == LikedBy(old(st.rows), m)
      ensures st.messages[m].likes == old(st).messages[m].likes
    {
      var first := ToggleLike(m, u);
      var second := ToggleLike(m, u);
    }
  }

  lemma UnlikeUsers(st: State, id: Id, m: Msg, u: User)
    requires Inv(st) && id in st.rows && st.rows[id] == Row(m, u, Like)
    ensures u in LikedBy(st.rows, m)
    ensures LikedBy(DeleteRow(st, id).rows, m) == LikedBy(st.rows, m) - {u}
  {
    var rows' := DeleteRow(st, id).rows;
    forall v | v in LikedBy(st.rows, m) && v != u ensures v in LikedBy(rows', m) {
      var i :| i in st.rows && st.rows[i].msg == m && st.rows[i].kind == Like && st.rows[i].user == v;
      assert i in rows' && rows'[i].user == v;
    }
    forall v | v in LikedBy(rows', m) ensures v in LikedBy(st.rows, m) && v != u {
      var i :| i in rows' && rows'[i].msg == m && rows'[i].kind == Like && rows'[i].user == v;
      assert st.rows[i] == rows'[i];
    }
  }

  lemma LikeUsers(st: State, m: Msg, u: User)
    requires Inv(st) && m in st.messages && !HasLike(st.rows, m, u)
    ensures u !in LikedBy(st.rows, m)
    ensures LikedBy(InsertRow(st, Row(m, u, Like)).rows, m) == LikedBy(st.rows, m) + {u}
  {
    var rows' := InsertRow(st, Row(m, u, Like)).rows;
    assert forall i :: i in st.rows && st.rows[i].msg == m && st.rows[i].kind == Like && st.rows[i].user == u
             ==> st.rows[i] == Row(m, u, Like);
    forall v | v in LikedBy(st.rows, m) ensures v in LikedBy(rows', m) {
      var i :| i in st.rows && st.rows[i].msg == m && st.rows[i].kind == Like && st.rows[i].user == v;
      assert rows'[i] == st.rows[i];
    }
    assert rows'[st.nextId].user == u;
  }
}
