/** The server's ToggleReaction with calls interleaved (ToggleReaction in
    backend/internal/repository/interaction_repo.go): a SELECT and a write with no transaction around
    them, over the unique index of migration 006. */
module ReactionRaces {
  import opened Basics
  import opened Reactions

  type Id = nat

  type Row = (Msg, User, Emoji)

  /** A call that has done its SELECT. */
  datatype Toggle = Toggle(msg: Msg, user: User, emoji: Emoji, found: Option<Id>)

  /** Ids of rows are generated fresh and never reused. */
  datatype State = State(messages: set<Msg>, rows: map<Id, Row>, nextId: Id, toggles: map<nat, Toggle>)

  datatype Step =
    | Publish(msg: Msg)
    | Remove(msg: Msg)
    | Select(call: nat, msg: Msg, user: User, emoji: Emoji, found: Option<Id>)
    | Write(call: nat)

  /** How a call ends: the flag it returns, or an error. */
  datatype Outcome = Added | Removed | Failed

  function Wanted(tx: Toggle): Row { (tx.msg, tx.user, tx.emoji) }

  /** The table as the set of its reactions. */
  function All(rows: map<Id, Row>): AllRows { rows.Values }

  function Result(st: State, tx: Toggle): Outcome
  {
    if tx.found.Some? then Removed
    else if tx.msg !in st.messages || Wanted(tx) in All(st.rows) then Failed
    else Added
  }

  predicate Enabled(st: State, step: Step)
  {
    match step
    case Publish(_) => true
    case Remove(_) => true
    case Select(t, m, u, e, found) =>
      && t !in st.toggles
      && (found.None? ==> (m, u, e) !in All(st.rows))
      && (found.Some? ==> found.value in st.rows && st.rows[found.value] == (m, u, e))
    case Write(t) => t in st.toggles
  }

  function Next(st: State, step: Step): State
    requires Enabled(st, step)
  {
    match step
    case Publish(m) => st.(messages := st.messages + {m})
    case Remove(m) =>
      st.(messages := st.messages - {m}, rows := map id | id in st.rows && st.rows[id].0 != m :: st.rows[id])
    case Select(t, m, u, e, found) => st.(toggles := st.toggles[t := Toggle(m, u, e, found)])
    case Write(t) =>
      var tx := st.toggles[t];
      var done := st.(toggles := st.toggles - {t});
      match Result(st, tx)
      case Added => done.(rows := st.rows[st.nextId := Wanted(tx)], nextId := st.nextId + 1)
      case Removed => done.(rows := st.rows - {tx.found.value})
      case Failed => done
  }

  const EMPTY: State := State({}, map[], 0, map[])

  ghost predicate Run(states: seq<State>, steps: seq<Step>)
  {
    && |states| == |steps| + 1 && states[0] == EMPTY
    && forall i {:trigger steps[i]} :: 0 <= i < |steps| ==>
         Enabled(states[i], steps[i]) && states[i + 1] == Next(states[i], steps[i])
  }

  /** Fresh ids are fresh, the index is unique, and a row a SELECT found is, while it exists, that row. */
  ghost predicate Inv(st: State)
  {
    && (forall id :: id in st.rows ==> id < st.nextId)
    && (forall a, b :: a in st.rows && b in st.rows && st.rows[a] == st.rows[b] ==> a == b)
    && (forall t :: t in st.toggles && st.toggles[t].found.Some? ==>
          var tx := st.toggles[t];
          tx.found.value < st.nextId && (tx.found.value in st.rows ==> st.rows[tx.found.value] == Wanted(tx)))
  }

  lemma InvStep(st: State, step: Step)
    requires Enabled(st, step) && Inv(st)
    ensures Inv(Next(st, step))
  {
    if step.Write? { InvWrite(st, step.call); }
  }

  lemma InvWrite(st: State, t: nat)
    requires Enabled(st, Write(t)) && Inv(st)
    ensures Inv(Next(st, Write(t)))
  {
    var st' := Next(st, Write(t));
    forall a, b | a in st'.rows && b in st'.rows && st'.rows[a] == st'.rows[b] ensures a == b {
      if a in st.rows && b in st.rows { assert st.rows[a] == st.rows[b]; }
    }
  }

  lemma {:induction false} RunInv(states: seq<State>, steps: seq<Step>, i: nat)
    requires Run(states, steps) && i < |states|
    ensures Inv(states[i])
  {
    if i > 0 {
      RunInv(states, steps, i - 1);
      assert Enabled(states[i - 1], steps[i - 1]) && states[i] == Next(states[i - 1], steps[i - 1]);
      InvStep(states[i - 1], steps[i - 1]);
    }
  }

  /** The write changes something: the row it found is still there, or there is room for a new one. */
  predicate Effective(st: State, tx: Toggle)
  {
    if tx.found.Some? then tx.found.value in st.rows else Result(st, tx) == Added
  }

  /** The table with one reaction toggled. */
  function Toggled(all: AllRows, row: Row): AllRows { if row in all then all - {row} else all + {row} }

  lemma ToggledUnder(all: AllRows, m: Msg, u: User, e: Emoji, other: Msg)
    ensures Under(Toggled(all, (m, u, e)), other) == if other == m then ToggleRow(Under(all, m), u, e) else Under(all, other)
  {
    var after := Toggled(all, (m, u, e));
    forall o, v, f ensures (v, f) in Under(after, o) <==> (o, v, f) in after {
      assert (o, v, f) in after ==> (v, f) in Under(after, o);
    }
    forall o, v, f ensures (v, f) in Under(all, o) <==> (o, v, f) in all {
      assert (o, v, f) in all ==> (v, f) in Under(all, o);
    }
    PairsDecide(Under(after, other), if other == m then ToggleRow(Under(all, m), u, e) else Under(all, other));
  }

  lemma WriteEffect(st: State, t: nat)
    requires Enabled(st, Write(t)) && Inv(st)
    ensures var tx, after := st.toggles[t], All(Next(st, Write(t)).rows);
            after == if Effective(st, tx) then Toggled(All(st.rows), Wanted(tx)) else All(st.rows)
  {
    var tx, st' := st.toggles[t], Next(st, Write(t));
    match Result(st, tx)
    case Added =>
      forall row ensures row in All(st'.rows) <==> row in All(st.rows) || row == Wanted(tx) {
        if row in All(st.rows) {
          var id :| id in st.rows && st.rows[id] == row;
          assert st'.rows[id] == row;
        }
        if row == Wanted(tx) { assert st'.rows[st.nextId] == row; }
      }
    case Removed =>
      var gone := tx.found.value;
      if gone in st.rows {
        forall row ensures row in All(st'.rows) <==> row in All(st.rows) && row != Wanted(tx) {
          if row in All(st.rows) && row != Wanted(tx) {
            var id :| id in st.rows && st.rows[id] == row;
            assert st'.rows[id] == row;
          }
        }
        assert Wanted(tx) in All(st.rows) by { assert st.rows[gone] == Wanted(tx); }
      } else {
        assert st'.rows == st.rows;
      }
    case Failed =>
  }

  /** In every interleaving each write either toggles exactly its own reaction or changes nothing. It
      toggles if and only if the row it found still exists, or it found none, the message exists and
      nobody inserted the reaction meanwhile. What it reports: "added" and the reaction is there, an
      error and nothing changed, or "removed" and the reaction is gone, unless the row it had found was
      deleted and the reaction inserted anew in between. */
  lemma WriteExact(states: seq<State>, steps: seq<Step>, i: nat)
    requires Run(states, steps) && i < |steps| && steps[i].Write?
    ensures |states| == |steps| + 1 && steps[i].call in states[i].toggles
    ensures var tx := states[i].toggles[steps[i].call];
            var before, after := All(states[i].rows), All(states[i + 1].rows);
            && after == (if Effective(states[i], tx) then Toggled(before, Wanted(tx)) else before)
            && (Result(states[i], tx) == Added ==> Effective(states[i], tx) && Wanted(tx) in after)
            && (Result(states[i], tx) == Failed ==> after == before)
            && (Result(states[i], tx) == Removed ==>
                  (Wanted(tx) in after <==> tx.found.value !in states[i].rows && Wanted(tx) in before))
  {
    assert Enabled(states[i], steps[i]) && states[i + 1] == Next(states[i], steps[i]);
    RunInv(states, steps, i);
    WriteEffect(states[i], steps[i].call);
    var tx := states[i].toggles[steps[i].call];
    if Result(states[i], tx) == Removed && tx.found.value in states[i].rows {
      assert states[i].rows[tx.found.value] == Wanted(tx);
    }
  }

  /** What happens to messages and calls: removing a message takes exactly its reactions along; a SELECT
      opens a call with what it found, and the write ends it. */
  lemma StatementsAct(st: State, step: Step)
    requires Enabled(st, step)
    ensures var st' := Next(st, step);
            match step
            case Publish(m) => st'.messages == st.messages + {m} && st'.rows == st.rows
            case Remove(m) =>
              && m !in st'.messages && (forall o :: o != m ==> (o in st'.messages <==> o in st.messages))
              && (forall id :: id in st'.rows <==> id in st.rows && st.rows[id].0 != m)
              && (forall id :: id in st'.rows ==> st'.rows[id] == st.rows[id])
            case Select(t, m, u, e, found) =>
              && t !in st.toggles && t in st'.toggles && st'.toggles[t] == Toggle(m, u, e, found)
              && (found.Some? <==> (m, u, e) in All(st.rows)) && st'.rows == st.rows
            case Write(t) => t !in st'.toggles && st'.messages == st.messages
  {
    if step.Select? && step.found.Some? {
      assert st.rows[step.found.value] in All(st.rows);
    }
  }

  /** A call nobody gets in between toggles its reaction under a message that exists. */
  lemma AloneToggles(states: seq<State>, steps: seq<Step>, i: nat, t: nat, m: Msg, u: User, e: Emoji)
    requires Run(states, steps) && i + 1 < |steps| && m in states[i].messages
    requires steps[i].Select? && steps[i].call == t && (steps[i].msg, steps[i].user, steps[i].emoji) == (m, u, e)
    requires steps[i + 1] == Write(t)
    ensures |states| == |steps| + 1 && All(states[i + 2].rows) == Toggled(All(states[i].rows), (m, u, e))
    ensures Under(All(states[i + 2].rows), m) == ToggleRow(Under(All(states[i].rows), m), u, e)
  {
    assert Enabled(states[i], steps[i]) && states[i + 1] == Next(states[i], steps[i]);
    WriteExact(states, steps, i + 1);
    ToggledUnder(All(states[i].rows), m, u, e, m);
  }
}
