/** The per-user cooldown middleware of backend/internal/middleware/ratelimit.go. */
module AntiSpam {
  import opened Traces

  function Evict(last: map<string, real>, cooldown: real, now: real): map<string, real>
  {
    map k | k in last && now - last[k] <= cooldown * 2.0 :: last[k]
  }

  /** One event. Requests without a user id pass and leave no record; a rejected
      request leaves the recorded time alone. */
  function Step(cooldown: real, evict: bool, last: map<string, real>, e: Event): (map<string, real>, Verdict)
  {
    match e
    case Cleanup(now) => (if evict then Evict(last, cooldown, now) else last, NoRequest)
    case Request(key, now) =>
      if key == "" then (last, Admitted)
      else if key in last && now - last[key] < cooldown then (last, Rejected)
      else (last[key := now], Admitted)
  }

  function StateAt(cooldown: real, evict: bool, trace: seq<Event>, n: nat): map<string, real>
    requires n <= |trace|
  {
    if n == 0 then map[] else Step(cooldown, evict, StateAt(cooldown, evict, trace, n - 1), trace[n - 1]).0
  }

  function VerdictAt(cooldown: real, evict: bool, trace: seq<Event>, n: nat): Verdict
    requires n < |trace|
  {
    Step(cooldown, evict, StateAt(cooldown, evict, trace, n), trace[n]).1
  }

  /** Event `i` is an accepted action of user `key`. */
  predicate AcceptedAt(cooldown: real, evict: bool, trace: seq<Event>, key: string, i: int)
  {
    RequestOf(trace, key, i) && VerdictAt(cooldown, evict, trace, i) == Admitted
  }

  /** Action `i` is the last accepted one before event `n`. */
  ghost predicate LastAccepted(cooldown: real, trace: seq<Event>, key: string, n: nat, i: int)
  {
    && 0 <= i < n && AcceptedAt(cooldown, false, trace, key, i)
    && forall j :: i < j < n ==> !AcceptedAt(cooldown, false, trace, key, j)
  }

  ghost predicate NoneAccepted(cooldown: real, trace: seq<Event>, key: string, n: nat)
  {
    forall i :: 0 <= i < n ==> !AcceptedAt(cooldown, false, trace, key, i)
  }

  /** One event records its time exactly when it is an accepted action of the user. */
  lemma RecordStep(cooldown: real, trace: seq<Event>, key: string, n: nat)
    requires n < |trace| && key != ""
    ensures var before, after := StateAt(cooldown, false, trace, n), StateAt(cooldown, false, trace, n + 1);
            if AcceptedAt(cooldown, false, trace, key, n) then key in after && after[key] == trace[n].at
            else (key in after <==> key in before) && (key in after ==> after[key] == before[key])
  {
  }

  /** The recorded time is that of the last accepted action. */
  lemma {:induction false} RecordsLastAccepted(cooldown: real, trace: seq<Event>, key: string, n: nat)
    requires n <= |trace| && key != ""
    ensures var last := StateAt(cooldown, false, trace, n);
            if key in last
            then exists i :: LastAccepted(cooldown, trace, key, n, i) && last[key] == trace[i].at
            else NoneAccepted(cooldown, trace, key, n)
  {
    if n > 0 {
      RecordsLastAccepted(cooldown, trace, key, n - 1);
      RecordStep(cooldown, trace, key, n - 1);
      var before, after := StateAt(cooldown, false, trace, n - 1), StateAt(cooldown, false, trace, n);
      hide StateAt;
      hide AcceptedAt;
      if AcceptedAt(cooldown, false, trace, key, n - 1) {
        assert LastAccepted(cooldown, trace, key, n, n - 1);
      } else if key in before {
        var i :| LastAccepted(cooldown, trace, key, n - 1, i) && before[key] == trace[i].at;
        assert LastAccepted(cooldown, trace, key, n, i);
      }
    }
  }

  /** Exact: an action is accepted if and only if every earlier accepted action of the
      user lies at least the cooldown back. Left to right, accepted actions are a cooldown
      apart; right to left, only an accepted action can block, so rejections never extend the wait. */
  lemma CooldownExact(cooldown: real, trace: seq<Event>, key: string, n: nat)
    requires Monotone(trace) && RequestOf(trace, key, n) && key != ""
    ensures AcceptedAt(cooldown, false, trace, key, n) <==>
            forall i :: 0 <= i < n && AcceptedAt(cooldown, false, trace, key, i) ==> trace[n].at - trace[i].at >= cooldown
  {
    RecordsLastAccepted(cooldown, trace, key, n);
    var last := StateAt(cooldown, false, trace, n);
    if key in last {
      var i :| LastAccepted(cooldown, trace, key, n, i) && last[key] == trace[i].at;
      forall j | 0 <= j < n && AcceptedAt(cooldown, false, trace, key, j)
        ensures trace[j].at <= trace[i].at
      {
      }
    }
  }

  /** How the evicting map `ev` relates to the reference map `all` at time `now`:
      what it forgot can no longer block anybody. */
  ghost predicate Forgets(cooldown: real, ev: map<string, real>, all: map<string, real>, now: real)
  {
    && (forall k :: k in ev ==> k in all && ev[k] == all[k])
    && (forall k :: k in all ==> all[k] <= now)
    && (forall k :: k in all && k !in ev ==> now - all[k] >= cooldown)
  }

  lemma StepForgets(cooldown: real, ev: map<string, real>, all: map<string, real>, before: real, e: Event)
    requires Forgets(cooldown, ev, all, before) && before <= e.at
    ensures Forgets(cooldown, Step(cooldown, true, ev, e).0, Step(cooldown, false, all, e).0, e.at)
    ensures Step(cooldown, true, ev, e).1 == Step(cooldown, false, all, e).1
  {
  }

  lemma {:induction false} RunForgets(cooldown: real, trace: seq<Event>, n: nat)
    requires Monotone(trace) && 0 < n <= |trace|
    ensures Forgets(cooldown, StateAt(cooldown, true, trace, n), StateAt(cooldown, false, trace, n), trace[n - 1].at)
    ensures VerdictAt(cooldown, true, trace, n - 1) == VerdictAt(cooldown, false, trace, n - 1)
  {
    if n == 1 {
      StepForgets(cooldown, map[], map[], trace[0].at, trace[0]);
    } else {
      RunForgets(cooldown, trace, n - 1);
      StepForgets(cooldown, StateAt(cooldown, true, trace, n - 1), StateAt(cooldown, false, trace, n - 1),
                  trace[n - 2].at, trace[n - 1]);
    }
  }

  /** Dropping entries older than twice the cooldown changes no verdict, for any cooldown. */
  lemma EvictionUnobservable(cooldown: real, trace: seq<Event>, n: nat)
    requires Monotone(trace) && n < |trace|
    ensures VerdictAt(cooldown, true, trace, n) == VerdictAt(cooldown, false, trace, n)
  {
    RunForgets(cooldown, trace, n + 1);
  }

  /** The exact rule for the middleware as deployed, janitor included. */
  lemma DeployedCooldownExact(cooldown: real, trace: seq<Event>, key: string, n: nat)
    requires Monotone(trace) && RequestOf(trace, key, n) && key != ""
    ensures AcceptedAt(cooldown, true, trace, key, n) <==>
            forall i :: 0 <= i < n && AcceptedAt(cooldown, true, trace, key, i) ==> trace[n].at - trace[i].at >= cooldown
  {
    CooldownExact(cooldown, trace, key, n);
    forall i | 0 <= i <= n
      ensures AcceptedAt(cooldown, true, trace, key, i) == AcceptedAt(cooldown, false, trace, key, i)
    {
      EvictionUnobservable(cooldown, trace, i);
    }
  }

  /** Requests without a user id always pass and leave no trace. */
  lemma {:induction false} AnonymousPasses(cooldown: real, evict: bool, trace: seq<Event>, n: nat)
    requires n <= |trace|
    ensures "" !in StateAt(cooldown, evict, trace, n)
    ensures n < |trace| && RequestOf(trace, "", n) ==> VerdictAt(cooldown, evict, trace, n) == Admitted
  {
    if n > 0 { AnonymousPasses(cooldown, evict, trace, n - 1); }
  }

  lemma {:induction false} StateOfPrefix(cooldown: real, trace: seq<Event>, e: Event, n: nat)
    requires n <= |trace|
    ensures StateAt(cooldown, true, trace + [e], n) == StateAt(cooldown, true, trace, n)
  {
    if n > 0 { StateOfPrefix(cooldown, trace, e, n - 1); }
  }

  /** The closure state of AntiSpam, updated under the mutex. */
  class Guard {
    const cooldown: real
    var lastAction: map<string, real>
    ghost var trace: seq<Event>

    ghost predicate Valid()
      reads this
    {
      lastAction == StateAt(cooldown, true, trace, |trace|)
    }

    constructor (cooldown: real)
      ensures Valid() && this.cooldown == cooldown && trace == []
    {
      this.cooldown := cooldown;
      lastAction := map[];
      trace := [];
    }

    method Handle(userId: string, now: real) returns (accepted: bool)
      requires Valid()
      modifies this
      ensures Valid() && trace == old(trace) + [Request(userId, now)]
      ensures accepted <==> VerdictAt(cooldown, true, trace, |old(trace)|) == Admitted
    {
      StateOfPrefix(cooldown, trace, Request(userId, now), |trace|);
      trace := trace + [Request(userId, now)];
      if userId == "" {
        return true;
      }
      if userId in lastAction && now - lastAction[userId] < cooldown {
        return false;
      }
      lastAction := lastAction[userId := now];
      accepted := true;
    }

    method Cleanup(now: real)
      requires Valid()
      modifies this
      ensures Valid() && trace == old(trace) + [Event.Cleanup(now)]
      ensures forall uid :: uid in lastAction <==> uid in old(lastAction) && now - old(lastAction)[uid] <= 2.0 * cooldown
      ensures forall uid :: uid in lastAction ==> lastAction[uid] == old(lastAction)[uid]
    {
      StateOfPrefix(cooldown, trace, Event.Cleanup(now), |trace|);
      ghost var before := lastAction;
      var todo := lastAction.Keys;
      while todo != {}
        invariant todo <= before.Keys
        invariant lastAction == map k | k in before && (k in todo || now - before[k] <= cooldown * 2.0) :: before[k]
        invariant trace == old(trace)
        decreases todo
      {
        var uid :| uid in todo;
        if now - lastAction[uid] > cooldown * 2.0 {
          lastAction := lastAction - {uid};
        }
        todo := todo - {uid};
      }
      trace := trace + [Event.Cleanup(now)];
    }
  }
}
