/** The token-bucket middleware of backend/internal/middleware/ratelimit.go.
    Tokens and times are reals; the state is the `visitors` map. */
module RateLimit {
  import opened Basics
  import opened Traces

  datatype Config = Config(rate: real, maxBurst: int)

  datatype Visitor = Visitor(tokens: real, lastSeen: real)

  /** Seconds after which the janitor forgets a visitor. */
  const IDLE: real := 60.0

  /** Tokens earned between two instants: the elapsed seconds times the rate. */
  function Earned(cfg: Config, from: real, to: real): real { (to - from) * cfg.rate }

  lemma EarnedAdds(cfg: Config, a: real, b: real, c: real)
    ensures Earned(cfg, a, b) + Earned(cfg, b, c) == Earned(cfg, a, c)
    ensures Earned(cfg, a, a) == 0.0
  {
  }

  lemma EarnedGrows(cfg: Config, a: real, a': real, b: real, b': real)
    requires cfg.rate >= 0.0 && a' <= a && b <= b'
    ensures Earned(cfg, a, b) <= Earned(cfg, a', b')
  {
    assert ((a - a') + (b' - b)) * cfg.rate >= 0.0;
  }

  /** Tokens available to a visitor at time `now`, before the request is charged. */
  function Refill(cfg: Config, v: Visitor, now: real): real
  {
    Min(v.tokens + Earned(cfg, v.lastSeen, now), cfg.maxBurst as real)
  }

  /** A visitor not seen before starts with a full bucket. */
  function Available(cfg: Config, vs: map<string, Visitor>, key: string, now: real): real
  {
    Refill(cfg, if key in vs then vs[key] else Visitor(cfg.maxBurst as real, now), now)
  }

  function Evict(vs: map<string, Visitor>, now: real): map<string, Visitor>
  {
    map k | k in vs && now - vs[k].lastSeen <= IDLE :: vs[k]
  }

  /** One event. With `evict` false the janitor does nothing: that is the
      reference limiter, which never forgets anybody. */
  function Step(cfg: Config, evict: bool, vs: map<string, Visitor>, e: Event): (map<string, Visitor>, Verdict)
  {
    match e
    case Cleanup(now) => (if evict then Evict(vs, now) else vs, NoRequest)
    case Request(key, now) =>
      var tokens := Available(cfg, vs, key, now);
      if tokens < 1.0
      then (vs[key := Visitor(tokens, now)], Rejected)
      else (vs[key := Visitor(tokens - 1.0, now)], Admitted)
  }

  /** The visitors map after the first `n` events. */
  function StateAt(cfg: Config, evict: bool, trace: seq<Event>, n: nat): map<string, Visitor>
    requires n <= |trace|
  {
    if n == 0 then map[] else Step(cfg, evict, StateAt(cfg, evict, trace, n - 1), trace[n - 1]).0
  }

  function VerdictAt(cfg: Config, evict: bool, trace: seq<Event>, n: nat): Verdict
    requires n < |trace|
  {
    Step(cfg, evict, StateAt(cfg, evict, trace, n), trace[n]).1
  }

  /** Requests of `key` among events i, ..., n-1 that were admitted. */
  function Admissions(cfg: Config, evict: bool, trace: seq<Event>, key: string, i: nat, n: nat): nat
    requires n <= |trace|
    decreases n
  {
    if n <= i then 0
    else Admissions(cfg, evict, trace, key, i, n - 1) +
         if RequestOf(trace, key, n - 1) && VerdictAt(cfg, evict, trace, n - 1) == Admitted then 1 else 0
  }

  /** What the budget opened by request `i` still allows at time `now`, before event `n`. */
  function Slack(cfg: Config, trace: seq<Event>, key: string, i: nat, n: nat, now: real): real
    requires i < |trace| && n <= |trace|
  {
    cfg.maxBurst as real + Earned(cfg, trace[i].at, now) - Admissions(cfg, false, trace, key, i, n) as real
  }

  lemma SlackOverTime(cfg: Config, trace: seq<Event>, key: string, i: nat, n: nat, t: real, t': real)
    requires i < |trace| && n <= |trace|
    ensures Slack(cfg, trace, key, i, n, t') == Slack(cfg, trace, key, i, n, t) + Earned(cfg, t, t')
  {
    EarnedAdds(cfg, trace[i].at, t, t');
  }

  /** Nobody has asked under `key` before event `n`. */
  ghost predicate Unseen(trace: seq<Event>, key: string, n: nat)
  {
    forall i :: 0 <= i < n ==> !RequestOf(trace, key, i)
  }

  /** `tokens` is the least slack over the earlier requests of `key`. */
  ghost predicate Tightest(cfg: Config, trace: seq<Event>, key: string, n: nat, now: real, tokens: real)
    requires n <= |trace|
  {
    && (forall i :: 0 <= i < n && RequestOf(trace, key, i) ==> tokens <= Slack(cfg, trace, key, i, n, now))
    && (exists i :: 0 <= i < n && RequestOf(trace, key, i) && tokens == Slack(cfg, trace, key, i, n, now))
  }

  /** The tokens kept for a visitor are exactly the tightest of all the budgets
      opened by its earlier requests. */
  lemma {:induction false} TokensAreTightest(cfg: Config, trace: seq<Event>, key: string, n: nat)
    requires n <= |trace|
    ensures var vs := StateAt(cfg, false, trace, n);
            if key in vs then Tightest(cfg, trace, key, n, vs[key].lastSeen, vs[key].tokens)
            else Unseen(trace, key, n)
  {
    hide Earned;
    if n > 0 {
      TokensAreTightest(cfg, trace, key, n - 1);
      var e := trace[n - 1];
      if RequestOf(trace, key, n - 1) {
        AvailableIsTightest(cfg, trace, key, n - 1);
        ChargeKeepsTightest(cfg, trace, key, n - 1);
      } else {
        var vs := StateAt(cfg, false, trace, n - 1);
        forall i | 0 <= i < n - 1 && RequestOf(trace, key, i)
          ensures forall t :: Slack(cfg, trace, key, i, n, t) == Slack(cfg, trace, key, i, n - 1, t)
        {
        }
        if key in vs {
          var w :| 0 <= w < n - 1 && RequestOf(trace, key, w) &&
                   vs[key].tokens == Slack(cfg, trace, key, w, n - 1, vs[key].lastSeen);
          assert vs[key].tokens == Slack(cfg, trace, key, w, n, vs[key].lastSeen);
        }
      }
    }
  }

  /** At a request, the available tokens are the least slack counting the request itself. */
  lemma AvailableIsTightest(cfg: Config, trace: seq<Event>, key: string, n: nat)
    requires n < |trace| && RequestOf(trace, key, n)
    requires var vs := StateAt(cfg, false, trace, n);
             if key in vs then Tightest(cfg, trace, key, n, vs[key].lastSeen, vs[key].tokens)
             else Unseen(trace, key, n)
    ensures var tokens := Available(cfg, StateAt(cfg, false, trace, n), key, trace[n].at);
            && (forall i :: 0 <= i <= n && RequestOf(trace, key, i) ==> tokens <= Slack(cfg, trace, key, i, n, trace[n].at))
            && (exists i :: 0 <= i <= n && RequestOf(trace, key, i) && tokens == Slack(cfg, trace, key, i, n, trace[n].at))
  {
    hide Earned;
    var vs := StateAt(cfg, false, trace, n);
    var now := trace[n].at;
    var tokens := Available(cfg, vs, key, now);
    EarnedAdds(cfg, now, now, now);
    assert Slack(cfg, trace, key, n, n, now) == cfg.maxBurst as real;
    if key in vs {
      var v := vs[key];
      forall i | 0 <= i < n && RequestOf(trace, key, i)
        ensures tokens <= Slack(cfg, trace, key, i, n, now)
      {
        SlackOverTime(cfg, trace, key, i, n, v.lastSeen, now);
      }
      var w :| 0 <= w < n && RequestOf(trace, key, w) && v.tokens == Slack(cfg, trace, key, w, n, v.lastSeen);
      SlackOverTime(cfg, trace, key, w, n, v.lastSeen, now);
      assert tokens == Slack(cfg, trace, key, w, n, now) || tokens == Slack(cfg, trace, key, n, n, now);
    } else {
      assert tokens == Slack(cfg, trace, key, n, n, now);
    }
  }

  lemma ChargeKeepsTightest(cfg: Config, trace: seq<Event>, key: string, n: nat)
    requires n < |trace| && RequestOf(trace, key, n)
    requires var tokens := Available(cfg, StateAt(cfg, false, trace, n), key, trace[n].at);
            && (forall i :: 0 <= i <= n && RequestOf(trace, key, i) ==> tokens <= Slack(cfg, trace, key, i, n, trace[n].at))
            && (exists i :: 0 <= i <= n && RequestOf(trace, key, i) && tokens == Slack(cfg, trace, key, i, n, trace[n].at))
    ensures var vs := StateAt(cfg, false, trace, n + 1);
            key in vs && Tightest(cfg, trace, key, n + 1, vs[key].lastSeen, vs[key].tokens)
  {
    hide Earned;
    var now := trace[n].at;
    var tokens := Available(cfg, StateAt(cfg, false, trace, n), key, now);
    var v := StateAt(cfg, false, trace, n + 1)[key];
    var charge := tokens - v.tokens;
    forall i | 0 <= i <= n && RequestOf(trace, key, i)
      ensures Slack(cfg, trace, key, i, n + 1, now) == Slack(cfg, trace, key, i, n, now) - charge
    {
    }
    var w :| 0 <= w <= n && RequestOf(trace, key, w) && tokens == Slack(cfg, trace, key, w, n, now);
    assert v.tokens == Slack(cfg, trace, key, w, n + 1, now);
  }

  /** The bucket is exact. A request is admitted if and only if, counted from every
      request of the same key so far (itself included), the admissions plus this one
      stay within maxBurst + rate * elapsed. No bound on rate, burst or clock is needed. */
  lemma BucketExact(cfg: Config, trace: seq<Event>, key: string, n: nat)
    requires RequestOf(trace, key, n)
    ensures VerdictAt(cfg, false, trace, n) == Admitted <==>
            forall i :: 0 <= i <= n && RequestOf(trace, key, i) ==>
              (Admissions(cfg, false, trace, key, i, n) + 1) as real
              <= cfg.maxBurst as real + Earned(cfg, trace[i].at, trace[n].at)
    ensures VerdictAt(cfg, false, trace, n) != NoRequest
  {
    hide Earned;
    TokensAreTightest(cfg, trace, key, n);
    AvailableIsTightest(cfg, trace, key, n);
    var now := trace[n].at;
    var tokens := Available(cfg, StateAt(cfg, false, trace, n), key, now);
    forall i | 0 <= i <= n && RequestOf(trace, key, i)
      ensures tokens <= Slack(cfg, trace, key, i, n, now)
      ensures (Admissions(cfg, false, trace, key, i, n) + 1) as real
              <= cfg.maxBurst as real + Earned(cfg, trace[i].at, now)
              <==> 1.0 <= Slack(cfg, trace, key, i, n, now)
    {
    }
  }

  // ---- Janitor -----------------------------------------------------------

  /** The janitor cannot be noticed: either nothing is ever admitted, or a visitor
      idle for a minute has refilled completely. */
  predicate IdleRefills(cfg: Config)
  {
    cfg.maxBurst <= 0 || cfg.rate * IDLE >= cfg.maxBurst as real
  }

  /** In the source's own numbers: the janitor's minute refills the bucket. */
  lemma IdleRefillsMeans(cfg: Config)
    ensures IdleRefills(cfg) <==> cfg.maxBurst <= 0 || cfg.rate * 60.0 >= cfg.maxBurst as real
  {
  }

  /** How the evicting limiter's map `ev` relates to the reference map `all` at time `now`. */
  ghost predicate Forgets(ev: map<string, Visitor>, all: map<string, Visitor>, now: real)
  {
    && (forall k :: k in ev ==> k in all && ev[k] == all[k])
    && (forall k :: k in all ==> all[k].tokens >= 0.0 && all[k].lastSeen <= now)
    && (forall k :: k in all && k !in ev ==> now - all[k].lastSeen > IDLE)
  }

  lemma ForgottenIsFull(cfg: Config, v: Visitor, now: real)
    requires cfg.maxBurst >= 1 && cfg.rate * IDLE >= cfg.maxBurst as real
    requires v.tokens >= 0.0 && now - v.lastSeen > IDLE
    ensures Refill(cfg, v, now) == cfg.maxBurst as real
  {
    var idleUntil := v.lastSeen + IDLE;
    assert Earned(cfg, v.lastSeen, idleUntil) == IDLE * cfg.rate;
    hide Earned;
    EarnedGrows(cfg, v.lastSeen, v.lastSeen, idleUntil, now);
  }

  lemma FreshIsFull(cfg: Config, now: real)
    ensures Refill(cfg, Visitor(cfg.maxBurst as real, now), now) == cfg.maxBurst as real
  {
  }

  lemma RefillNonNegative(cfg: Config, v: Visitor, now: real)
    requires cfg.maxBurst >= 1 && cfg.rate >= 0.0
    requires v.tokens >= 0.0 && v.lastSeen <= now
    ensures Refill(cfg, v, now) >= 0.0
  {
    hide Earned;
    EarnedGrows(cfg, v.lastSeen, v.lastSeen, v.lastSeen, now);
    EarnedAdds(cfg, v.lastSeen, v.lastSeen, now);
  }

  lemma StepForgets(cfg: Config, ev: map<string, Visitor>, all: map<string, Visitor>, before: real, e: Event)
    requires cfg.maxBurst >= 1 && cfg.rate * IDLE >= cfg.maxBurst as real
    requires Forgets(ev, all, before) && before <= e.at
    ensures Forgets(Step(cfg, true, ev, e).0, Step(cfg, false, all, e).0, e.at)
    ensures Step(cfg, true, ev, e).1 == Step(cfg, false, all, e).1
  {
    hide Earned;
    if e.Request? {
      FreshIsFull(cfg, e.at);
      if e.key in all {
        RefillNonNegative(cfg, all[e.key], e.at);
        if e.key !in ev { ForgottenIsFull(cfg, all[e.key], e.at); }
      }
    }
  }

  lemma {:induction false} RunForgets(cfg: Config, trace: seq<Event>, n: nat)
    requires cfg.maxBurst >= 1 && cfg.rate * IDLE >= cfg.maxBurst as real
    requires Monotone(trace) && 0 < n <= |trace|
    ensures Forgets(StateAt(cfg, true, trace, n), StateAt(cfg, false, trace, n), trace[n - 1].at)
  {
    if n == 1 {
      StepForgets(cfg, map[], map[], trace[0].at, trace[0]);
    } else {
      RunForgets(cfg, trace, n - 1);
      StepForgets(cfg, StateAt(cfg, true, trace, n - 1), StateAt(cfg, false, trace, n - 1), trace[n - 2].at, trace[n - 1]);
    }
  }

  /** Eviction is unobservable: on every trace with a monotone clock the evicting
      limiter gives every event the verdict of the limiter that never evicts. */
  lemma EvictionUnobservable(cfg: Config, trace: seq<Event>, n: nat)
    requires IdleRefills(cfg)
    requires Monotone(trace) && n < |trace|
    ensures VerdictAt(cfg, true, trace, n) == VerdictAt(cfg, false, trace, n)
  {
    if cfg.maxBurst >= 1 {
      if n == 0 {
        StepForgets(cfg, map[], map[], trace[0].at, trace[0]);
      } else {
        RunForgets(cfg, trace, n);
        StepForgets(cfg, StateAt(cfg, true, trace, n), StateAt(cfg, false, trace, n), trace[n - 1].at, trace[n]);
      }
    }
  }

  lemma {:induction false} AdmissionsAgree(cfg: Config, trace: seq<Event>, key: string, i: nat, n: nat)
    requires IdleRefills(cfg) && Monotone(trace) && n <= |trace|
    ensures Admissions(cfg, true, trace, key, i, n) == Admissions(cfg, false, trace, key, i, n)
  {
    if n > i {
      AdmissionsAgree(cfg, trace, key, i, n - 1);
      EvictionUnobservable(cfg, trace, n - 1);
    }
  }

  /** The exact characterisation for the limiter as deployed, janitor included. */
  lemma LimiterExact(cfg: Config, trace: seq<Event>, key: string, n: nat)
    requires IdleRefills(cfg) && Monotone(trace) && RequestOf(trace, key, n)
    ensures VerdictAt(cfg, true, trace, n) == Admitted <==>
            forall i :: 0 <= i <= n && RequestOf(trace, key, i) ==>
              (Admissions(cfg, true, trace, key, i, n) + 1) as real
              <= cfg.maxBurst as real + Earned(cfg, trace[i].at, trace[n].at)
  {
    hide Earned;
    EvictionUnobservable(cfg, trace, n);
    BucketExact(cfg, trace, key, n);
    forall i | 0 <= i <= n && RequestOf(trace, key, i)
      ensures Admissions(cfg, true, trace, key, i, n) == Admissions(cfg, false, trace, key, i, n)
    {
      AdmissionsAgree(cfg, trace, key, i, n);
    }
  }

  /** `m` requests at time 0, one janitor pass at time `t`, `m` requests at time `t`. */
  function BurstTrace(key: string, m: nat, t: real): (trace: seq<Event>)
    ensures |trace| == 2 * m + 1
  {
    seq(2 * m + 1, i => if i < m then Request(key, 0.0) else if i == m then Cleanup(t) else Request(key, t))
  }

  /** With eviction both bursts are admitted whole. */
  lemma {:induction false} EvictingAdmitsBothBursts(cfg: Config, key: string, t: real, n: nat)
    requires cfg.maxBurst >= 1 && t > IDLE
    requires n <= 2 * cfg.maxBurst + 1
    ensures var m := cfg.maxBurst;
            var vs := StateAt(cfg, true, BurstTrace(key, m, t), n);
            if n == 0 || n == m + 1 then key !in vs
            else key in vs && vs[key] == if n <= m then Visitor((m - n) as real, 0.0)
                                         else Visitor((2 * m + 1 - n) as real, t)
  {
    hide Earned;
    if n > 0 {
      EvictingAdmitsBothBursts(cfg, key, t, n - 1);
      FreshIsFull(cfg, 0.0);
      FreshIsFull(cfg, t);
      EarnedAdds(cfg, 0.0, 0.0, 0.0);
      EarnedAdds(cfg, t, t, t);
    }
  }

  lemma EvictingVerdict(cfg: Config, key: string, t: real, n: nat)
    requires cfg.maxBurst >= 1 && t > IDLE && RequestOf(BurstTrace(key, cfg.maxBurst, t), key, n)
    ensures VerdictAt(cfg, true, BurstTrace(key, cfg.maxBurst, t), n) == Admitted
  {
    hide Earned;
    EvictingAdmitsBothBursts(cfg, key, t, n);
    FreshIsFull(cfg, 0.0);
    FreshIsFull(cfg, t);
    EarnedAdds(cfg, 0.0, 0.0, 0.0);
    EarnedAdds(cfg, t, t, t);
  }

  /** Without eviction the same trace cannot be admitted whole. */
  lemma ReferenceRejectsSome(cfg: Config, key: string, t: real)
    requires cfg.maxBurst >= 1 && t > IDLE && cfg.rate * t < cfg.maxBurst as real
    ensures exists n: nat ::
              && n < 2 * cfg.maxBurst + 1
              && RequestOf(BurstTrace(key, cfg.maxBurst, t), key, n)
              && VerdictAt(cfg, false, BurstTrace(key, cfg.maxBurst, t), n) == Rejected
  {
    assert Earned(cfg, 0.0, t) < cfg.maxBurst as real;
    hide Earned;
    var m := cfg.maxBurst;
    var trace := BurstTrace(key, m, t);
    if forall n: nat :: n < 2 * m + 1 && RequestOf(trace, key, n) ==> VerdictAt(cfg, false, trace, n) != Rejected {
      AllAdmitted(cfg, key, t, 2 * m);
      assert RequestOf(trace, key, 0) && RequestOf(trace, key, 2 * m);
      BucketExact(cfg, trace, key, 2 * m);
      assert false;
    }
  }

  lemma {:induction false} AllAdmitted(cfg: Config, key: string, t: real, n: nat)
    requires cfg.maxBurst >= 1 && n <= 2 * cfg.maxBurst + 1
    requires forall i: nat :: i < n && RequestOf(BurstTrace(key, cfg.maxBurst, t), key, i) ==>
               VerdictAt(cfg, false, BurstTrace(key, cfg.maxBurst, t), i) != Rejected
    ensures Admissions(cfg, false, BurstTrace(key, cfg.maxBurst, t), key, 0, n) == if n <= cfg.maxBurst then n else n - 1
  {
    hide StateAt;
    hide Earned;
    if n > 0 {
      AllAdmitted(cfg, key, t, n - 1);
      var trace := BurstTrace(key, cfg.maxBurst, t);
      assert n - 1 != cfg.maxBurst ==> RequestOf(trace, key, n - 1);
    }
  }

  /** When an idle minute does not refill the bucket, neither does a little more than a minute. */
  lemma UnfilledInstant(cfg: Config) returns (t: real)
    requires !IdleRefills(cfg)
    ensures t > IDLE && cfg.rate * t < cfg.maxBurst as real
  {
    if cfg.rate <= 0.0 {
      t := 61.0;
    } else {
      var full := cfg.maxBurst as real / cfg.rate;
      assert full * cfg.rate == cfg.maxBurst as real;
      assert full > IDLE;
      t := (IDLE + full) / 2.0;
      assert (full - t) * cfg.rate > 0.0;
    }
  }

  /** Conversely, when an idle minute does not refill the bucket, some monotone trace
      gets a different verdict from the evicting limiter: IdleRefills is exact. */
  lemma EvictionObservable(cfg: Config) returns (trace: seq<Event>, n: nat)
    requires !IdleRefills(cfg)
    ensures Monotone(trace) && n < |trace|
    ensures VerdictAt(cfg, true, trace, n) == Admitted && VerdictAt(cfg, false, trace, n) == Rejected
  {
    hide VerdictAt;
    hide RequestOf;
    var m := cfg.maxBurst;
    var t := UnfilledInstant(cfg);
    trace := BurstTrace("", m, t);
    ReferenceRejectsSome(cfg, "", t);
    n :| n < 2 * m + 1 && RequestOf(trace, "", n) && VerdictAt(cfg, false, trace, n) == Rejected;
    EvictingVerdict(cfg, "", t, n);
  }

  // ---- Windows -----------------------------------------------------------

  /** Admissions of `key` with time in [a, b] among the first `n` events of the real limiter. */
  function AdmittedIn(cfg: Config, trace: seq<Event>, key: string, a: real, b: real, n: nat): nat
    requires n <= |trace|
  {
    if n == 0 then 0
    else AdmittedIn(cfg, trace, key, a, b, n - 1) +
         if RequestOf(trace, key, n - 1) && a <= trace[n - 1].at <= b && VerdictAt(cfg, true, trace, n - 1) == Admitted
         then 1 else 0
  }

  lemma {:induction false} WindowHasFirst(cfg: Config, trace: seq<Event>, key: string, a: real, b: real, n: nat)
    requires IdleRefills(cfg) && Monotone(trace) && n <= |trace|
    ensures AdmittedIn(cfg, trace, key, a, b, n) == 0 ||
            exists i: nat :: i < n && RequestOf(trace, key, i) && a <= trace[i].at &&
                             AdmittedIn(cfg, trace, key, a, b, n) <= Admissions(cfg, false, trace, key, i, n)
  {
    if n > 0 {
      WindowHasFirst(cfg, trace, key, a, b, n - 1);
      EvictionUnobservable(cfg, trace, n - 1);
      if AdmittedIn(cfg, trace, key, a, b, n - 1) == 0 {
        if AdmittedIn(cfg, trace, key, a, b, n) != 0 {
          assert Admissions(cfg, false, trace, key, n - 1, n) == 1;
        }
      } else {
        var i: nat :| i < n - 1 && RequestOf(trace, key, i) && a <= trace[i].at &&
                 AdmittedIn(cfg, trace, key, a, b, n - 1) <= Admissions(cfg, false, trace, key, i, n - 1);
        assert Admissions(cfg, false, trace, key, i, n - 1) <= Admissions(cfg, false, trace, key, i, n);
      }
    }
  }

  /** Every window of every run, janitor included, admits at most
      maxBurst + rate * length requests of one key. */
  lemma {:induction false} WindowBound(cfg: Config, trace: seq<Event>, key: string, a: real, b: real, n: nat)
    requires IdleRefills(cfg) && cfg.rate >= 0.0 && cfg.maxBurst >= 0
    requires Monotone(trace) && n <= |trace| && a <= b
    ensures AdmittedIn(cfg, trace, key, a, b, n) as real <= cfg.maxBurst as real + Earned(cfg, a, b)
  {
    hide Earned;
    EarnedGrows(cfg, a, a, a, b);
    EarnedAdds(cfg, a, a, b);
    if n > 0 {
      WindowBound(cfg, trace, key, a, b, n - 1);
      if AdmittedIn(cfg, trace, key, a, b, n) != AdmittedIn(cfg, trace, key, a, b, n - 1) {
        LastAdmissionBound(cfg, trace, key, a, b, n - 1);
      }
    }
  }

  lemma LastAdmissionBound(cfg: Config, trace: seq<Event>, key: string, a: real, b: real, k: nat)
    requires IdleRefills(cfg) && cfg.rate >= 0.0 && cfg.maxBurst >= 0
    requires Monotone(trace) && a <= b
    requires RequestOf(trace, key, k) && a <= trace[k].at <= b && VerdictAt(cfg, true, trace, k) == Admitted
    ensures (AdmittedIn(cfg, trace, key, a, b, k) + 1) as real <= cfg.maxBurst as real + Earned(cfg, a, b)
  {
    hide Earned;
    WindowHasFirst(cfg, trace, key, a, b, k);
    EvictionUnobservable(cfg, trace, k);
    BucketExact(cfg, trace, key, k);
    var i: nat := k;
    if AdmittedIn(cfg, trace, key, a, b, k) != 0 {
      i :| i < k && RequestOf(trace, key, i) && a <= trace[i].at &&
           AdmittedIn(cfg, trace, key, a, b, k) <= Admissions(cfg, false, trace, key, i, k);
    }
    assert (Admissions(cfg, false, trace, key, i, k) + 1) as real <= cfg.maxBurst as real + Earned(cfg, trace[i].at, trace[k].at);
    EarnedGrows(cfg, trace[i].at, a, trace[k].at, b);
  }

  lemma BurstRequests(key: string, m: nat, t: real, i: nat)
    requires i < 2 * m + 1 && t >= 0.0
    ensures RequestOf(BurstTrace(key, m, t), key, i) <==> i != m
    ensures 0.0 <= BurstTrace(key, m, t)[i].at <= t
  {
  }

  /** Both bursts of the trace are admitted, so [0, t] holds all of them. */
  lemma {:induction false} BurstsInWindow(cfg: Config, key: string, t: real, n: nat)
    requires cfg.maxBurst >= 1 && t > IDLE && n <= 2 * cfg.maxBurst + 1
    ensures AdmittedIn(cfg, BurstTrace(key, cfg.maxBurst, t), key, 0.0, t, n) == if n <= cfg.maxBurst then n else n - 1
  {
    hide VerdictAt;
    hide RequestOf;
    hide BurstTrace;
    hide Earned;
    if n > 0 {
      var m, k := cfg.maxBurst, n - 1;
      var trace := BurstTrace(key, m, t);
      BurstsInWindow(cfg, key, t, k);
      BurstRequests(key, m, t, k);
      if k != m { EvictingVerdict(cfg, key, t, k); }
      assert AdmittedIn(cfg, trace, key, 0.0, t, n) == AdmittedIn(cfg, trace, key, 0.0, t, k) + if k != m then 1 else 0;
    }
  }

  /** The condition of WindowBound is exact as well: when an idle minute does not refill the bucket,
      some monotone run admits more than maxBurst + rate * length in a window. */
  lemma WindowExceeded(cfg: Config) returns (trace: seq<Event>, key: string, t: real)
    requires !IdleRefills(cfg)
    ensures Monotone(trace) && t >= 0.0
    ensures AdmittedIn(cfg, trace, key, 0.0, t, |trace|) as real > cfg.maxBurst as real + Earned(cfg, 0.0, t)
  {
    t := UnfilledInstant(cfg);
    key := "";
    trace := BurstTrace(key, cfg.maxBurst, t);
    BurstMonotone(key, cfg.maxBurst, t);
    BurstsInWindow(cfg, key, t, |trace|);
    EarnedFromZero(cfg, t);
    hide Earned;
    hide AdmittedIn;
    hide Monotone;
    hide BurstTrace;
  }

  /** Every window of every monotone run stays within maxBurst + rate * length. */
  ghost predicate WindowsBounded(cfg: Config)
  {
    forall trace, key, a, b, n ::
      Monotone(trace) && 0 <= n <= |trace| && a <= b ==>
        AdmittedIn(cfg, trace, key, a, b, n) as real <= cfg.maxBurst as real + Earned(cfg, a, b)
  }

  /** The bound holds in every run if and only if an idle minute refills the bucket and neither the
      rate nor the burst is negative. */
  lemma WindowsBoundedExactly(cfg: Config)
    ensures WindowsBounded(cfg) <==> IdleRefills(cfg) && cfg.rate >= 0.0 && cfg.maxBurst >= 0
  {
    hide AdmittedIn;
    hide Earned;
    hide IdleRefills;
    if IdleRefills(cfg) && cfg.rate >= 0.0 && cfg.maxBurst >= 0 {
      forall trace, key, a, b, n | Monotone(trace) && 0 <= n <= |trace| && a <= b
        ensures AdmittedIn(cfg, trace, key, a, b, n) as real <= cfg.maxBurst as real + Earned(cfg, a, b)
      {
        WindowBound(cfg, trace, key, a, b, n);
      }
    } else if !IdleRefills(cfg) {
      var trace, key, t := WindowExceeded(cfg);
      assert !(AdmittedIn(cfg, trace, key, 0.0, t, |trace|) as real <= cfg.maxBurst as real + Earned(cfg, 0.0, t));
    } else {
      var t := EmptyWindow(cfg);
      assert !(AdmittedIn(cfg, [], "", 0.0, t, 0) as real <= cfg.maxBurst as real + Earned(cfg, 0.0, t));
    }
  }

  /** With a negative rate or burst even a window without requests falls below zero. */
  lemma EmptyWindow(cfg: Config) returns (t: real)
    requires cfg.rate < 0.0 || cfg.maxBurst < 0
    ensures t >= 0.0 && AdmittedIn(cfg, [], "", 0.0, t, 0) as real > cfg.maxBurst as real + Earned(cfg, 0.0, t)
  {
    if cfg.maxBurst < 0 {
      t := 0.0;
    } else {
      t := (cfg.maxBurst as real + 1.0) / -cfg.rate;
      assert t * -cfg.rate == cfg.maxBurst as real + 1.0;
      assert t >= 0.0;
    }
    EarnedFromZero(cfg, t);
  }

  lemma BurstMonotone(key: string, m: nat, t: real)
    requires t >= 0.0
    ensures Monotone(BurstTrace(key, m, t))
  {
  }

  lemma EarnedFromZero(cfg: Config, t: real)
    ensures Earned(cfg, 0.0, t) == cfg.rate * t
  {
  }

  /** The server's own settings, 10 requests a second and bursts of 20, meet the janitor's condition,
      so no window of b - a seconds admits more than 20 + 10 * (b - a) requests of one address. */
  lemma DeployedWindow(trace: seq<Event>, key: string, a: real, b: real, n: nat)
    requires Monotone(trace) && n <= |trace| && a <= b
    ensures AdmittedIn(Config(10.0, 20), trace, key, a, b, n) as real <= 20.0 + 10.0 * (b - a)
  {
    hide AdmittedIn;
    hide Monotone;
    var cfg := Config(10.0, 20);
    WindowBound(cfg, trace, key, a, b, n);
    assert Earned(cfg, a, b) == (b - a) * 10.0;
  }

  // ---- The middleware object ----------------------------------------------

  lemma {:induction false} StateOfPrefix(cfg: Config, trace: seq<Event>, e: Event, n: nat)
    requires n <= |trace|
    ensures StateAt(cfg, true, trace + [e], n) == StateAt(cfg, true, trace, n)
  {
    if n > 0 { StateOfPrefix(cfg, trace, e, n - 1); }
  }

  lemma NextEvent(cfg: Config, trace: seq<Event>, e: Event)
    ensures var after := Step(cfg, true, StateAt(cfg, true, trace, |trace|), e);
            && StateAt(cfg, true, trace + [e], |trace| + 1) == after.0
            && VerdictAt(cfg, true, trace + [e], |trace|) == after.1
  {
    StateOfPrefix(cfg, trace, e, |trace|);
  }

  /** The closure state of RateLimit: the visitors map, updated in place under the mutex.
      The ghost trace records every event handled so far. */
  class Limiter {
    const cfg: Config
    var visitors: map<string, Visitor>
    ghost var trace: seq<Event>

    ghost predicate Valid()
      reads this
    {
      visitors == StateAt(cfg, true, trace, |trace|)
    }

    constructor (cfg: Config)
      ensures Valid() && this.cfg == cfg && trace == []
    {
      this.cfg := cfg;
      visitors := map[];
      trace := [];
    }

    /** One request; `admitted` is the verdict of the recorded trace. */
    method Handle(ip: string, now: real) returns (admitted: bool)
      requires Valid()
      modifies this
      ensures Valid() && trace == old(trace) + [Request(ip, now)]
      ensures admitted <==> VerdictAt(cfg, true, trace, |old(trace)|) == Admitted
    {
      hide Earned;
      hide StateAt;
      hide VerdictAt;
      NextEvent(cfg, trace, Request(ip, now));
      trace := trace + [Request(ip, now)];
      ghost var before := visitors;
      if ip !in visitors {
        visitors := visitors[ip := Visitor(cfg.maxBurst as real, now)];
      }
      var v := visitors[ip];
      var tokens := v.tokens + Earned(cfg, v.lastSeen, now);
      if tokens > cfg.maxBurst as real {
        tokens := cfg.maxBurst as real;
      }
      visitors := visitors[ip := Visitor(tokens, now)];
      assert tokens == Available(cfg, before, ip, now);
      assert visitors == before[ip := Visitor(tokens, now)];
      if tokens < 1.0 {
        return false;
      }
      visitors := visitors[ip := Visitor(tokens - 1.0, now)];
      assert visitors == before[ip := Visitor(tokens - 1.0, now)];
      admitted := true;
    }

    /** One janitor pass over all entries, in any order. */
    method Cleanup(now: real)
      requires Valid()
      modifies this
      ensures Valid() && trace == old(trace) + [Event.Cleanup(now)]
      ensures forall ip :: ip in visitors <==> ip in old(visitors) && now - old(visitors)[ip].lastSeen <= 60.0
      ensures forall ip :: ip in visitors ==> visitors[ip] == old(visitors)[ip]
    {
      StateOfPrefix(cfg, trace, Event.Cleanup(now), |trace|);
      ghost var before := visitors;
      var todo := visitors.Keys;
      while todo != {}
        invariant todo <= before.Keys
        invariant visitors == map k | k in before && (k in todo || now - before[k].lastSeen <= IDLE) :: before[k]
        invariant trace == old(trace)
        decreases todo
      {
        var ip :| ip in todo;
        if now - visitors[ip].lastSeen > IDLE {
          visitors := visitors - {ip};
        }
        todo := todo - {ip};
      }
      trace := trace + [Event.Cleanup(now)];
    }
  }
}
