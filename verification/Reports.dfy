/** Auto-moderation: InteractionService.ReportMessage runs three separate statements
    (insert report, count reports, hide message) with no transaction around them.
    Each statement is one step; calls interleave freely and any statement may fail. */
module Reports {

  import opened Basics

  /** Reports needed before a message is hidden. */
  const QUORUM: nat := 3

  datatype Phase = Inserting | Counting | Hiding

  datatype Call = Call(msg: Msg, user: User, phase: Phase)

  /** `reports` is content_reports, unique per (reporter, message); `messages` the live
      messages; `everUsed` the ids ever given out, which the database never reuses.
      `errors` records the messages for which a count or hide statement failed. */
  datatype State = State(
    messages: set<Msg>, everUsed: set<Msg>, hidden: set<Msg>,
    reports: set<(User, Msg)>, calls: map<nat, Call>, errors: set<Msg>)

  datatype Step =
    | Publish(msg: Msg)
    | Remove(msg: Msg)
    | Begin(call: nat, msg: Msg, user: User)
    | Insert(call: nat)
    | InsertFails(call: nat)
    | Count(call: nat)
    | CountFails(call: nat)
    | Hide(call: nat)
    | HideFails(call: nat)

  function Reporters(st: State, m: Msg): set<User>
  {
    set p | p in st.reports && p.1 == m :: p.0
  }

  predicate At(st: State, t: nat, phase: Phase)
  {
    t in st.calls && st.calls[t].phase == phase
  }

  predicate Enabled(st: State, step: Step)
  {
    match step
    case Publish(m) => m !in st.everUsed
    case Remove(m) => m in st.messages
    case Begin(t, _, _) => t !in st.calls
    case Insert(t) => At(st, t, Inserting) && st.calls[t].msg in st.messages
    case InsertFails(t) => At(st, t, Inserting)
    case Count(t) => At(st, t, Counting)
    case CountFails(t) => At(st, t, Counting)
    case Hide(t) => At(st, t, Hiding)
    case HideFails(t) => At(st, t, Hiding)
  }

  function Next(st: State, step: Step): State
    requires Enabled(st, step)
  {
    match step
    case Publish(m) => st.(messages := st.messages + {m}, everUsed := st.everUsed + {m})
    case Remove(m) =>
      st.(messages := st.messages - {m}, hidden := st.hidden - {m},
          reports := set p | p in st.reports && p.1 != m)
    case Begin(t, m, u) => st.(calls := st.calls[t := Call(m, u, Inserting)])
    case Insert(t) =>
      var c := st.calls[t];
      st.(reports := st.reports + {(c.user, c.msg)}, calls := st.calls[t := c.(phase := Counting)])
    case InsertFails(t) => st.(calls := st.calls - {t})
    case Count(t) =>
      var c := st.calls[t];
      if |Reporters(st, c.msg)| >= QUORUM
      then st.(calls := st.calls[t := c.(phase := Hiding)])
      else st.(calls := st.calls - {t})
    case CountFails(t) => st.(calls := st.calls - {t}, errors := st.errors + {st.calls[t].msg})
    case Hide(t) =>
      var m := st.calls[t].msg;
      st.(hidden := if m in st.messages then st.hidden + {m} else st.hidden, calls := st.calls - {t})
    case HideFails(t) => st.(calls := st.calls - {t}, errors := st.errors + {st.calls[t].msg})
  }

  const INIT: State := State({}, {}, {}, {}, map[], {})

  ghost predicate Run(states: seq<State>, steps: seq<Step>)
  {
    && |states| == |steps| + 1
    && states[0] == INIT
    && forall i :: 0 <= i < |steps| ==>
         Enabled(states[i], steps[i]) && states[i + 1] == Next(states[i], steps[i])
  }

  /** Call `t` has inserted its report on `m` and will still hide it if the quorum is met. */
  predicate WillHide(st: State, t: nat, m: Msg)
  {
    t in st.calls && st.calls[t].msg == m && !st.calls[t].phase.Inserting?
  }

  ghost predicate Inv(st: State)
  {
    && st.messages <= st.everUsed
    && st.hidden <= st.messages
    && (forall t :: t in st.calls && !st.calls[t].phase.Inserting? ==> st.calls[t].msg in st.everUsed)
    && (forall m :: m in st.hidden ==> |Reporters(st, m)| >= QUORUM)
    && (forall t :: At(st, t, Hiding) && st.calls[t].msg in st.messages ==> |Reporters(st, st.calls[t].msg)| >= QUORUM)
    && (forall m :: m in st.messages && m !in st.errors && |Reporters(st, m)| >= QUORUM ==>
          m in st.hidden || exists t :: WillHide(st, t, m))
  }

  lemma ReportersGrow(st: State, t: nat, m: Msg)
    requires Enabled(st, Insert(t))
    ensures Reporters(st, m) <= Reporters(Next(st, Insert(t)), m)
    ensures |Reporters(st, m)| <= |Reporters(Next(st, Insert(t)), m)|
    ensures m != st.calls[t].msg ==> Reporters(st, m) == Reporters(Next(st, Insert(t)), m)
  {
    var st' := Next(st, Insert(t));
    forall u | u in Reporters(st, m) ensures u in Reporters(st', m) {
      assert (u, m) in st'.reports;
    }
    SubsetSize(Reporters(st, m), Reporters(st', m));
  }

  lemma RemoveKeepsOthers(st: State, gone: Msg, m: Msg)
    requires Enabled(st, Remove(gone)) && m != gone
    ensures Reporters(Next(st, Remove(gone)), m) == Reporters(st, m)
  {
    var st' := Next(st, Remove(gone));
    forall u | u in Reporters(st, m) ensures u in Reporters(st', m) {
      assert (u, m) in st'.reports;
    }
  }

  lemma InsertKeepsInv(st: State, t: nat)
    requires Enabled(st, Insert(t)) && Inv(st)
    ensures Inv(Next(st, Insert(t)))
  {
    hide Reporters;
    var st' := Next(st, Insert(t));
    forall m ensures |Reporters(st, m)| <= |Reporters(st', m)|
             ensures m != st.calls[t].msg ==> Reporters(st, m) == Reporters(st', m)
    {
      ReportersGrow(st, t, m);
    }
    forall m | m in st'.messages && m !in st'.errors && |Reporters(st', m)| >= QUORUM
      ensures m in st'.hidden || exists t' :: WillHide(st', t', m)
    {
      if m == st.calls[t].msg {
        assert WillHide(st', t, m);
      } else if t' :| WillHide(st, t', m) {
        assert WillHide(st', t', m);
      }
    }
  }

  lemma RemoveKeepsInv(st: State, gone: Msg)
    requires Enabled(st, Remove(gone)) && Inv(st)
    ensures Inv(Next(st, Remove(gone)))
  {
    hide Reporters;
    var st' := Next(st, Remove(gone));
    forall m | m != gone ensures Reporters(st', m) == Reporters(st, m) {
      RemoveKeepsOthers(st, gone, m);
    }
    forall m | m in st'.messages && m !in st'.errors && |Reporters(st', m)| >= QUORUM
      ensures m in st'.hidden || exists t' :: WillHide(st', t', m)
    {
      if t' :| WillHide(st, t', m) { assert WillHide(st', t', m); }
    }
  }

  /** Steps that leave the reports alone keep the invariant. */
  lemma OtherStepsKeepInv(st: State, step: Step)
    requires Enabled(st, step) && Inv(st) && !step.Insert? && !step.Remove?
    requires step.Publish? ==> Reporters(st, step.msg) == {}
    ensures Inv(Next(st, step))
  {
    var st' := Next(st, step);
    assert forall m :: Reporters(st', m) == Reporters(st, m);
    hide Reporters;
    forall m | m in st'.messages && m !in st'.errors && |Reporters(st', m)| >= QUORUM
      ensures m in st'.hidden || exists t' :: WillHide(st', t', m)
    {
      if t' :| WillHide(st, t', m) {
        if t' in st'.calls { assert WillHide(st', t', m); }
      }
    }
  }

  /** Reports concern messages that exist or existed. */
  ghost predicate ReportsOnUsed(st: State)
  {
    forall p :: p in st.reports ==> p.1 in st.everUsed
  }

  lemma {:induction false} RunKeepsInv(states: seq<State>, steps: seq<Step>, i: nat)
    requires Run(states, steps) && i < |states|
    ensures Inv(states[i]) && ReportsOnUsed(states[i])
  {
    if i > 0 {
      RunKeepsInv(states, steps, i - 1);
      var st, step := states[i - 1], steps[i - 1];
      if step.Insert? {
        InsertKeepsInv(st, step.call);
      } else if step.Remove? {
        RemoveKeepsInv(st, step.msg);
      } else {
        OtherStepsKeepInv(st, step);
      }
    }
  }

  /** In every interleaving, failures included, a message is hidden only with at least
      three distinct reporters. */
  lemma NeverHiddenWithoutQuorum(states: seq<State>, steps: seq<Step>, i: nat, m: Msg)
    requires Run(states, steps) && i < |states| && m in states[i].hidden
    ensures m in states[i].messages && |Reporters(states[i], m)| >= 3
  {
    RunKeepsInv(states, steps, i);
  }

  /** Once no call is in flight, every live message with a quorum is hidden, unless one of
      its own count or hide statements failed: the check-then-act code loses no quorum. */
  lemma QuorumHidesWhenQuiet(states: seq<State>, steps: seq<Step>, i: nat, m: Msg)
    requires Run(states, steps) && i < |states| && states[i].calls == map[]
    requires m in states[i].messages && m !in states[i].errors
    ensures m in states[i].hidden <==> |Reporters(states[i], m)| >= 3
  {
    RunKeepsInv(states, steps, i);
  }

  /** A hidden message stays hidden for as long as it exists. */
  lemma {:induction false} HiddenStays(states: seq<State>, steps: seq<Step>, i: nat, j: nat, m: Msg)
    requires Run(states, steps) && i <= j < |states|
    requires m in states[i].hidden && m in states[j].messages
    ensures m in states[j].hidden
    decreases j
  {
    if i < j {
      RunKeepsInv(states, steps, i);
      if m !in states[j - 1].messages {
        GoneForever(states, steps, i, j - 1, m);
      }
      HiddenStays(states, steps, i, j - 1, m);
    }
  }

  lemma {:induction false} GoneForever(states: seq<State>, steps: seq<Step>, i: nat, j: nat, m: Msg)
    requires Run(states, steps) && i <= j < |states| - 1
    requires m in states[i].everUsed && m !in states[j].messages
    ensures m in states[j].everUsed && m !in states[j + 1].messages
  {
    UsedForever(states, steps, i, j, m);
  }

  lemma {:induction false} UsedForever(states: seq<State>, steps: seq<Step>, i: nat, j: nat, m: Msg)
    requires Run(states, steps) && i <= j < |states| && m in states[i].everUsed
    ensures m in states[j].everUsed
    decreases j
  {
    if i < j { UsedForever(states, steps, i, j - 1, m); }
  }

  /** Under one message there are as many report rows as distinct reporters. */
  lemma {:induction false} RowsAreReporters(rows: set<(User, Msg)>, m: Msg)
    requires forall p :: p in rows ==> p.1 == m
    ensures |rows| == |set p | p in rows :: p.0|
  {
    if rows != {} {
      var p :| p in rows;
      RowsAreReporters(rows - {p}, m);
      var names, fewer := set q | q in rows :: q.0, set q | q in rows - {p} :: q.0;
      assert p.0 !in fewer by {
        forall q | q in rows - {p} ensures q.0 != p.0 {
          assert q == (q.0, m) && p == (p.0, m);
        }
      }
      assert names == fewer + {p.0};
    }
  }

  /** A report that was inserted counts for as long as its message exists: the call's own user is among
      the reporters ever after. */
  lemma {:induction false} ReportCounts(states: seq<State>, steps: seq<Step>, i: nat, j: nat)
    requires Run(states, steps) && i < |steps| && i < j < |states| && steps[i].Insert? && |states| == |steps| + 1
    requires At(states[i], steps[i].call, Inserting) && states[i].calls[steps[i].call].msg in states[j].messages
    ensures states[i].calls[steps[i].call].user in Reporters(states[j], states[i].calls[steps[i].call].msg)
    decreases j
  {
    var c := states[i].calls[steps[i].call];
    var m, p := c.msg, (c.user, c.msg);
    RunKeepsInv(states, steps, i);
    assert Enabled(states[i], steps[i]) && states[i + 1] == Next(states[i], steps[i]);
    if j == i + 1 {
      assert p in states[j].reports;
    } else {
      assert Enabled(states[j - 1], steps[j - 1]) && states[j] == Next(states[j - 1], steps[j - 1]);
      if m !in states[j - 1].messages { GoneForever(states, steps, i, j - 1, m); }
      ReportCounts(states, steps, i, j - 1);
      assert p in states[j - 1].reports;
      assert p in states[j].reports;
    }
  }

  /** What happens to messages and calls: a new id becomes a live message; a live message can be removed,
      and goes with its flag and its reports; a statement that fails ends its call and leaves every
      table alone. */
  lemma StatementsAct(st: State, step: Step)
    requires Enabled(st, step)
    ensures var st' := Next(st, step);
            match step
            case Publish(m) => m !in st.everUsed && st'.messages == st.messages + {m}
            case Remove(m) =>
              && m in st.messages && m !in st'.messages && m !in st'.hidden
              && (forall p :: p in st'.reports <==> p in st.reports && p.1 != m)
            case Begin(t, m, u) => t !in st.calls && t in st'.calls && st'.calls[t] == Call(m, u, Inserting)
            case Insert(t) => t in st'.calls && st'.calls[t] == st.calls[t].(phase := Counting)
            case Count(t) => st'.reports == st.reports && st'.hidden == st.hidden
            case Hide(t) => t !in st'.calls && st'.reports == st.reports
            case InsertFails(t) => t !in st'.calls && st' == st.(calls := st'.calls)
            case CountFails(t) => t !in st'.calls && st' == st.(calls := st'.calls, errors := st'.errors)
            case HideFails(t) => t !in st'.calls && st' == st.(calls := st'.calls, errors := st'.errors)
  {
  }

  /** Whose report a call inserts: the one it was begun with, and nobody else reports. */
  lemma ReportedByCaller(st: State, step: Step, u: User, m: Msg)
    requires Enabled(st, step) && u in Reporters(Next(st, step), m) && u !in Reporters(st, m)
    ensures step.Insert? && st.calls[step.call] == Call(m, u, Inserting)
  {
    assert (u, m) in Next(st, step).reports && (u, m) !in st.reports;
  }

  // ---- The service method --------------------------------------------------------

  /** One whole call with nothing running beside it, as the sequence of its steps. */
  function Serially(st: State, m: Msg, u: User): State
    requires st.calls == map[] && m in st.messages
  {
    var s := Next(Next(Next(st, Begin(0, m, u)), Insert(0)), Count(0));
    if At(s, 0, Hiding) then Next(s, Hide(0)) else s
  }

  lemma OneMoreReporter(st: State, st': State, m: Msg, u: User)
    requires st'.reports == st.reports + {(u, m)}
    ensures Reporters(st', m) == Reporters(st, m) + {u}
  {
    forall v ensures v in Reporters(st', m) <==> v in Reporters(st, m) + {u} {
      assert v in Reporters(st', m) <==> (v, m) in st'.reports;
      assert v in Reporters(st, m) <==> (v, m) in st.reports;
    }
  }

  lemma SerialResult(st: State, m: Msg, u: User)
    requires st.calls == map[] && m in st.messages
    ensures var saved := st.(reports := st.reports + {(u, m)});
            Serially(st, m, u) == saved.(hidden := saved.hidden + if |Reporters(saved, m)| >= QUORUM then {m} else {})
  {
    var saved := st.(reports := st.reports + {(u, m)});
    var begun := Next(st, Begin(0, m, u));
    var counted := Next(begun, Insert(0));
    assert begun == st.(calls := map[0 := Call(m, u, Inserting)]);
    assert counted == saved.(calls := map[0 := Call(m, u, Counting)]);
    SameReporters(counted, saved, m);
    hide Reporters;
    assert counted.calls - {0} == map[];
  }

  lemma SameReporters(st: State, st': State, m: Msg)
    requires st.reports == st'.reports
    ensures Reporters(st, m) == Reporters(st', m)
  {
  }

  /** The tables ReportMessage works on. */
  class InteractionService {
    var messages: set<Msg>
    var everUsed: set<Msg>
    var hidden: set<Msg>
    var reports: set<(User, Msg)>

    ghost function View(): State
      reads this
    {
      State(messages, everUsed, hidden, reports, map[], {})
    }

    method InsertReport(m: Msg, u: User)
      modifies this`reports
      ensures reports == old(reports) + {(u, m)}
    {
      reports := reports + {(u, m)};
    }

    /** COUNT(*) over the message's rows; as no reporter has two, it counts reporters. */
    method GetReportCount(m: Msg) returns (count: nat)
      ensures count == |Reporters(View(), m)|
    {
      var rows := set p | p in reports && p.1 == m;
      count := |rows|;
      RowsAreReporters(rows, m);
      assert (set p | p in rows :: p.0) == Reporters(View(), m);
    }

    method HideMessage(m: Msg)
      modifies this`hidden
      ensures hidden == old(hidden) + if m in messages then {m} else {}
    {
      if m in messages {
        hidden := hidden + {m};
      }
    }

    /** Insert, count, hide at three or more: exactly the serial run of the steps above.
        Reporting a message that does not exist fails at the insert and changes nothing. */
    method ReportMessage(m: Msg, u: User) returns (saved: bool)
      modifies this
      ensures saved <==> m in old(messages)
      ensures View() == if saved then Serially(old(View()), m, u) else old(View())
      ensures saved ==> Reporters(View(), m) == Reporters(old(View()), m) + {u}
      ensures saved ==> hidden == old(hidden) + if |Reporters(View(), m)| >= 3 then {m} else {}
    {
      if m !in messages {
        return false;
      }
      hide Serially;
      hide Reporters;
      SerialResult(View(), m, u);
      InsertReport(m, u);
      var count := GetReportCount(m);
      OneMoreReporter(old(View()), View(), m, u);
      if count >= QUORUM {
        HideMessage(m);
      }
      saved := true;
    }
  }
}
